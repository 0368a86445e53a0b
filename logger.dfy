/**
 * Model of v3/logger/logger.go: the package-level log control (level and
 * fatal exiter), the level gate of the `...f` functions, the parsing of
 * the caller's function name into a call info, its two renderings, and
 * the line layouts of the standard and the Go logger backends.
 *
 * What the runtime supplies (the caller's file, function name and line,
 * the formatted message, the timestamp) comes in as parameters; the
 * backend and the exiter are recorded as events rather than performed.
 */
module Logger {
  import opened Base
  import opened Strs

  // ----- Levels -----

  /** The six message severities, one per backend method and `...f` function. */
  datatype Severity = Debug | Info | Warning | Error | Critical | Fatal

  /** The LogLevel constant of a severity: `iota`, so Debug = 0 up to Fatal = 5. */
  function Rank(s: Severity): (r: int)
    ensures 0 <= r <= 5
  {
    match s
    case Debug => 0
    case Info => 1
    case Warning => 2
    case Error => 3
    case Critical => 4
    case Fatal => 5
  }

  const LevelDebug: int := Rank(Debug)
  const LevelInfo: int := Rank(Info)
  const LevelFatal: int := Rank(Fatal)

  /** The levels are strictly ordered in declaration order, so two severities share no level. */
  lemma LevelsOrdered()
    ensures Rank(Debug) < Rank(Info) < Rank(Warning) < Rank(Error) < Rank(Critical) < Rank(Fatal)
    ensures LevelDebug == 0 && LevelFatal == 5
    ensures forall a: Severity, b: Severity :: Rank(a) == Rank(b) ==> a == b
  {
  }

  /** The level SetLevel stores: anything at or below Debug is Debug, at or above Fatal is Fatal. */
  function Clamp(level: int): (r: int)
    ensures LevelDebug <= r <= LevelFatal
    ensures level <= LevelDebug ==> r == LevelDebug
    ensures level >= LevelFatal ==> r == LevelFatal
    ensures LevelDebug <= level <= LevelFatal ==> r == level
  {
    if level <= LevelDebug then LevelDebug
    else if level >= LevelFatal then LevelFatal
    else level
  }

  /** Setting a stored level again changes nothing, and a higher request never stores a lower level. */
  lemma ClampSettles(a: int, b: int)
    ensures Clamp(Clamp(a)) == Clamp(a)
    ensures a <= b ==> Clamp(a) <= Clamp(b)
  {
  }

  /** The gate of Debugf..Criticalf: a message passes when the current level is at most its own. */
  predicate Passes(level: int, s: Severity)
  {
    level <= Rank(s)
  }

  /**
   * Raising the level only removes messages; at Debug every message passes,
   * and at Fatal none of the gated ones (Debugf..Criticalf) does.
   */
  lemma GateMonotone(low: int, high: int, s: Severity)
    requires low <= high
    ensures Passes(high, s) ==> Passes(low, s)
    ensures Passes(LevelDebug, s)
    ensures Passes(LevelFatal, s) <==> s == Fatal
  {
  }

  // ----- Call info -----

  /** What runtime.Caller(2) and FuncForPC(pc).Name() report about the logging call. */
  datatype Caller = Caller(file: string, funcName: string, line: int)

  /** callInfo: the package, file and function of the call, and its line. */
  datatype CallInfo = CallInfo(packageName: string, fileName: string, funcName: string, line: int)

  /** The last segment of a path: the second result of path.Split. */
  function FileName(file: string): (r: string)
    ensures '/' !in r
    ensures |r| <= |file| && r == file[|file| - |r|..]
  {
    After(file, '/')
  }

  /**
   * FileName is path.Split's second result: the character just before it is
   * the path's last '/', and a path without '/' is its own file name.
   */
  lemma FileNameShape(file: string)
    ensures '/' in file ==> |FileName(file)| < |file| && file[|file| - |FileName(file)| - 1] == '/'
    ensures '/' !in file ==> FileName(file) == file
  {
  }

  /**
   * retrieveCallInfo on what the runtime reported. The function name is
   * split at its dots; the last segment is the function, prefixed by the
   * one before it when that is a method receiver "(T)" or "(*T)", and the
   * rest is the package. Go panics when the name has no dot (`parts[pl-2]`
   * is out of range) or the segment before the last is empty (its `[0]`);
   * the model answers None for those.
   */
  function RetrieveCallInfo(caller: Caller): (r: Option<CallInfo>)
    ensures r.Some? <==> |Split(caller.funcName, '.')| >= 2 && Split(caller.funcName, '.')[|Split(caller.funcName, '.')| - 2] != ""
    ensures r.Some? ==> r.value.fileName == FileName(caller.file) && r.value.line == caller.line
  {
    var parts := Split(caller.funcName, '.');
    var pl := |parts|;
    if pl < 2 || |parts[pl - 2]| == 0 then None
    else if parts[pl - 2][0] == '(' then
      Some(CallInfo(Join(parts[..pl - 2], "."), FileName(caller.file), parts[pl - 2] + "." + parts[pl - 1], caller.line))
    else
      Some(CallInfo(Join(parts[..pl - 1], "."), FileName(caller.file), parts[pl - 1], caller.line))
  }

  /** A name has at least two dot segments exactly when it holds a dot. */
  lemma SplitHasDot(s: string, c: char)
    ensures |Split(s, c)| >= 2 <==> c in s
  {
  }

  /** A method name "(T).f" with no package before it: two dot segments, the first a receiver. */
  predicate IsBareMethod(funcName: string)
  {
    var parts := Split(funcName, '.');
    |parts| == 2 && parts[0] != "" && parts[0][0] == '('
  }

  /**
   * The package and the function put back together with a dot give the
   * full function name, except for a bare method name "(T).f", which
   * keeps the whole name as function and an empty package.
   */
  lemma {:induction false} CallNameRebuilt(caller: Caller)
    requires RetrieveCallInfo(caller).Some?
    ensures var ci := RetrieveCallInfo(caller).value;
      && (!IsBareMethod(caller.funcName) ==> ci.packageName + "." + ci.funcName == caller.funcName)
      && (IsBareMethod(caller.funcName) ==> ci.packageName == "" && ci.funcName == caller.funcName)
  {
    var parts := Split(caller.funcName, '.');
    var pl := |parts|;
    JoinSplit(caller.funcName, '.');
    assert Join(parts, ".") == caller.funcName;
    if parts[pl - 2][0] != '(' {
      PlainRebuilt(caller, parts);
    } else if pl > 2 {
      ReceiverRebuiltCall(caller, parts);
    } else {
      ReceiverAloneCall(caller, parts);
    }
  }

  /** CallNameRebuilt for a function name without receiver. */
  lemma PlainRebuilt(caller: Caller, parts: seq<string>)
    requires Split(caller.funcName, '.') == parts && Join(parts, ".") == caller.funcName
    requires |parts| >= 2 && parts[|parts| - 2] != "" && parts[|parts| - 2][0] != '('
    ensures !IsBareMethod(caller.funcName)
    ensures RetrieveCallInfo(caller).Some?
    ensures var ci := RetrieveCallInfo(caller).value; ci.packageName + "." + ci.funcName == caller.funcName
  {
    PlainCallOf(caller, parts, FileName(caller.file));
    LastRebuilt(parts);
  }

  /** CallNameRebuilt for a method of a type in a package. */
  lemma ReceiverRebuiltCall(caller: Caller, parts: seq<string>)
    requires Split(caller.funcName, '.') == parts && Join(parts, ".") == caller.funcName
    requires |parts| >= 3 && parts[|parts| - 2] != "" && parts[|parts| - 2][0] == '('
    ensures !IsBareMethod(caller.funcName)
    ensures RetrieveCallInfo(caller).Some?
    ensures var ci := RetrieveCallInfo(caller).value; ci.packageName + "." + ci.funcName == caller.funcName
  {
    MethodCallOf(caller, parts, FileName(caller.file));
    ReceiverRebuilt(parts);
  }

  /** CallNameRebuilt for a method name "(T).f" with nothing before it. */
  lemma ReceiverAloneCall(caller: Caller, parts: seq<string>)
    requires Split(caller.funcName, '.') == parts && Join(parts, ".") == caller.funcName
    requires |parts| == 2 && parts[0] != "" && parts[0][0] == '('
    ensures IsBareMethod(caller.funcName)
    ensures RetrieveCallInfo(caller).Some?
    ensures var ci := RetrieveCallInfo(caller).value; ci.packageName == "" && ci.funcName == caller.funcName
  {
    MethodCallOf(caller, parts, FileName(caller.file));
    PairJoin(parts);
    assert parts[..0] == [];
  }

  /** The parts but the last, joined, then a dot and the last part, join all parts. */
  lemma LastRebuilt(parts: seq<string>)
    requires |parts| >= 2
    ensures Join(parts[..|parts| - 1], ".") + "." + parts[|parts| - 1] == Join(parts, ".")
  {
    JoinAt(parts, ".", |parts| - 1);
    assert parts[|parts| - 1..] == [parts[|parts| - 1]];
  }

  /** Two parts join with one dot between them. */
  lemma PairJoin(parts: seq<string>)
    requires |parts| == 2
    ensures Join(parts, ".") == parts[0] + "." + parts[1]
  {
    JoinCons(parts[0], [parts[1]], ".");
    assert parts == [parts[0]] + [parts[1]];
  }

  /** The parts but the last two, joined, then a dot and the last two joined by a dot, join all parts. */
  lemma ReceiverRebuilt(parts: seq<string>)
    requires |parts| >= 3
    ensures Join(parts[..|parts| - 2], ".") + "." + (parts[|parts| - 2] + "." + parts[|parts| - 1]) == Join(parts, ".")
  {
    var pl := |parts|;
    JoinAt(parts, ".", pl - 2);
    PairJoin(parts[pl - 2..]);
  }

  // ----- Renderings -----

  /** The decimal digits of a natural number, as `%d` prints it. */
  function Digits(n: nat): (r: string)
    ensures |r| >= 1 && forall i | 0 <= i < |r| :: '0' <= r[i] <= '9'
  {
    if n < 10 then [DigitChar(n)] else Digits(n / 10) + [DigitChar(n % 10)]
  }

  function DigitChar(d: nat): (c: char)
    requires d < 10
    ensures '0' <= c <= '9'
  {
    ('0' as int + d) as char
  }

  /** `%d` of an int: a minus sign for negative numbers, then the digits. */
  function Decimal(n: int): (r: string)
    ensures |r| >= 1 && ':' !in r && ')' !in r
  {
    if n < 0 then "-" + Digits(-n) else Digits(n)
  }

  /** Reading decimal digits back. */
  function ParseDigits(s: string): int
  {
    if |s| == 0 then 0 else 10 * ParseDigits(s[..|s| - 1]) + (s[|s| - 1] as int - '0' as int)
  }

  /** Reading a possibly signed decimal back. */
  function ParseDecimal(s: string): int
  {
    if |s| > 0 && s[0] == '-' then -ParseDigits(s[1..]) else ParseDigits(s)
  }

  lemma {:induction false} DigitsRoundTrip(n: nat)
    ensures ParseDigits(Digits(n)) == n
  {
    if n >= 10 {
      var d := Digits(n);
      assert d[..|d| - 1] == Digits(n / 10);
      DigitsRoundTrip(n / 10);
    }
  }

  /** `%d` loses nothing: the printed number reads back as itself. */
  lemma DecimalRoundTrip(n: int)
    ensures ParseDecimal(Decimal(n)) == n
  {
    if n < 0 {
      var d := Digits(-n);
      assert ("-" + d)[1..] == d;
      DigitsRoundTrip(-n);
    } else {
      assert '0' <= Digits(n)[0] <= '9';
      DigitsRoundTrip(n);
    }
  }

  /** shortFormat: the package in brackets. */
  function ShortFormat(ci: CallInfo): string
  {
    "[" + ci.packageName + "]"
  }

  /** verboseFormat: "[pkg] (file:func:line)". */
  function VerboseFormat(ci: CallInfo): string
  {
    VerboseHead(ci) + [':'] + Decimal(ci.line) + ")"
  }

  /** The verbose format up to the colon before the line: "[pkg] (file:func". */
  function VerboseHead(ci: CallInfo): string
  {
    ShortFormat(ci) + (" (" + ci.fileName + ":" + ci.funcName)
  }

  /** The package named by a short format. */
  function PackageOf(short: string): string
  {
    if |short| < 2 then "" else short[1..|short| - 1]
  }

  /** The line number read back from a verbose format: the number after its last colon. */
  function LineOf(verbose: string): int
  {
    if |verbose| == 0 then 0 else ParseDecimal(After(verbose[..|verbose| - 1], ':'))
  }

  /** The short format gives back the package; so two calls with different packages render differently. */
  lemma ShortFormatRoundTrip(ci: CallInfo)
    ensures PackageOf(ShortFormat(ci)) == ci.packageName
  {
  }

  /**
   * The verbose format starts with the short one, and its line number
   * reads back, whatever colons the file and function names hold.
   */
  lemma VerboseFormatRoundTrip(ci: CallInfo)
    ensures LineOf(VerboseFormat(ci)) == ci.line
    ensures PackageOf(VerboseFormat(ci)[..|ShortFormat(ci)|]) == ci.packageName
  {
    var head, d := VerboseHead(ci), Decimal(ci.line);
    var q := head + [':'] + d;
    Halves(q, ")");
    AfterLast(head, ':', d);
    DecimalRoundTrip(ci.line);
    VerbosePrefix(ci);
  }

  /** The short format is a prefix of the verbose one. */
  lemma VerbosePrefix(ci: CallInfo)
    ensures VerboseFormat(ci)[..|ShortFormat(ci)|] == ShortFormat(ci)
  {
    var short, head := ShortFormat(ci), VerboseHead(ci);
    var v := VerboseFormat(ci);
    Halves(short, " (" + ci.fileName + ":" + ci.funcName);
    Halves(head, [':'] + Decimal(ci.line) + ")");
    assert v == head + ([':'] + Decimal(ci.line) + ")");
    assert v[..|short|] == v[..|head|][..|short|];
  }

  /** The call info a `...f` function hands to the backend: verbose for Debug, Critical and Fatal. */
  function InfoFor(s: Severity, ci: CallInfo): (r: string)
    ensures r == ShortFormat(ci) || r == VerboseFormat(ci)
    ensures s in {Debug, Critical, Fatal} <==> r == VerboseFormat(ci)
  {
    if s in {Debug, Critical, Fatal} then VerboseFormat(ci) else ShortFormat(ci)
  }

  // ----- Backend lines -----

  /** The tag a backend writes for a severity. */
  function Tag(s: Severity): (t: string)
    ensures |t| >= 4 && ']' !in t && '[' !in t
  {
    match s
    case Debug => "DEBUG"
    case Info => "INFO"
    case Warning => "WARNING"
    case Error => "ERROR"
    case Critical => "CRITICAL"
    case Fatal => "FATAL"
  }

  /** The severity a tag names, if any. */
  function SeverityOf(tag: string): (r: Option<Severity>)
    ensures r.Some? ==> Tag(r.value) == tag
  {
    if tag == "DEBUG" then Some(Debug)
    else if tag == "INFO" then Some(Info)
    else if tag == "WARNING" then Some(Warning)
    else if tag == "ERROR" then Some(Error)
    else if tag == "CRITICAL" then Some(Critical)
    else if tag == "FATAL" then Some(Fatal)
    else None
  }

  /** Every tag names its severity back, so no two severities share a tag. */
  lemma TagRoundTrip(s: Severity)
    ensures SeverityOf(Tag(s)) == Some(s)
  {
  }

  /**
   * A StandardLogger line: the timestamp (already formatted with
   * "2006-01-02 15:04:05 Z07:00"), the tag in brackets, the info, the
   * message and a newline, as the six writes of each backend method put them.
   */
  function StandardLine(timestamp: string, s: Severity, info: string, msg: string): string
  {
    timestamp + " [" + Tag(s) + "] " + info + " " + msg + "\n"
  }

  /** What a GoLogger passes on to log.Println: the bracketed tag, the info and the message, space separated. */
  function GoLine(s: Severity, info: string, msg: string): (line: string)
    ensures |line| > 0 && line[0] == '[' && line[|line| - 1] == '\n'
  {
    "[" + Tag(s) + "]" + " " + info + " " + msg + "\n"
  }

  /** The text between the brackets after the timestamp of a standard line. */
  function LineTag(timestamp: string, line: string): Option<string>
  {
    if |line| < |timestamp| + 2 then None
    else
      var rest := line[|timestamp| + 2..];
      var k := IndexOf(rest, ']');
      if k < 0 then None else Some(rest[..k])
  }

  /** The severity read back from a standard line whose timestamp is known. */
  function LineSeverity(timestamp: string, line: string): Option<Severity>
  {
    var tag := LineTag(timestamp, line);
    if tag.None? then None else SeverityOf(tag.value)
  }

  /** A standard line names its own severity, whatever the info and the message hold. */
  lemma StandardLineSeverity(timestamp: string, s: Severity, info: string, msg: string)
    ensures LineSeverity(timestamp, StandardLine(timestamp, s, info, msg)) == Some(s)
  {
    TaggedLine(timestamp, Tag(s), info, msg);
    TagRoundTrip(s);
  }

  /** Any bracket-free tag laid out as a standard line is read back between its brackets. */
  lemma TaggedLine(timestamp: string, tag: string, info: string, msg: string)
    requires ']' !in tag
    ensures LineTag(timestamp, timestamp + " [" + tag + "] " + info + " " + msg + "\n") == Some(tag)
  {
    var tail := " " + info + " " + msg + "\n";
    var rest := tag + [']'] + tail;
    LineLayout(timestamp, tag, info, msg);
    Halves(timestamp + " [", rest);
    IndexOfAfter(tag, ']', tail);
    Assoc(tag, [']'], tail);
    Halves(tag, [']'] + tail);
  }

  /** The pieces of a standard line, grouped as the timestamp and bracket, then the tag and what follows. */
  lemma LineLayout(timestamp: string, tag: string, info: string, msg: string)
    ensures timestamp + " [" + tag + "] " + info + " " + msg + "\n"
      == (timestamp + " [") + (tag + [']'] + (" " + info + " " + msg + "\n"))
  {
  }

  /** Both backends lay out the same text after the standard logger's timestamp. */
  lemma BackendsAgree(timestamp: string, s: Severity, info: string, msg: string)
    ensures StandardLine(timestamp, s, info, msg) == timestamp + " " + GoLine(s, info, msg)
  {
  }

  // ----- Log control -----

  /** The writer a standard logger writes to; only os.Stdout is named by the package. */
  const Stdout: nat := 1

  /** The logger backends: the standard logger on a writer, the Go logger, or one set by the user. */
  datatype Backend = StandardLogger(out: nat) | GoLogger | OtherLogger(id: nat)

  /** The fatal exiters: os.Exit(-1), a panic, or one set by the user. */
  datatype Exiter = OsFatalExiter | PanicFatalExiter | OtherExiter(id: nat)

  /** What the log control does to the outside: a call of a backend method, or a call of the exiter. */
  datatype Event = Sent(to: Backend, severity: Severity, info: string, msg: string) | Exited(via: Exiter)

  /** The event a passing `...f` call produces, or nothing when retrieveCallInfo panics. */
  function Emitted(to: Backend, s: Severity, caller: Caller, msg: string): (r: seq<Event>)
    ensures |r| <= 1
    ensures r != [] <==> RetrieveCallInfo(caller).Some?
    ensures r != [] ==> r[0].Sent? && r[0].to == to && r[0].severity == s && r[0].msg == msg
    ensures r != [] ==> r[0].info == InfoFor(s, RetrieveCallInfo(caller).value)
  {
    var ci := RetrieveCallInfo(caller);
    if ci.None? then [] else [Sent(to, s, InfoFor(s, ci.value), msg)]
  }

  /**
   * The package-level state: `logLevel`, `logFatalExiter` and
   * `logBackend`, with the events sent so far. The mutex only serialises
   * the calls, so every method is one atomic step.
   */
  class LogControl {
    var level: int
    var exiter: Exiter
    var backend: Backend
    var events: seq<Event>

    /** The stored level is always one of the six. */
    ghost predicate Valid()
      reads this
    {
      LevelDebug <= level <= LevelFatal
    }

    /** The initial values: level Info, os.Exit as exiter, a standard logger on stdout. */
    constructor ()
      ensures Valid() && level == LevelInfo && exiter == OsFatalExiter && backend == StandardLogger(Stdout) && events == []
    {
      level := LevelInfo;
      exiter := OsFatalExiter;
      backend := StandardLogger(Stdout);
      events := [];
    }

    /** Level: the current level, which is always one of the six. */
    method Level() returns (l: int)
      requires Valid()
      ensures l == level && LevelDebug <= l <= LevelFatal
    {
      l := level;
    }

    /** SetLevel: store the clamped level and return the previous one. */
    method SetLevel(l: int) returns (current: int)
      modifies this`level
      ensures Valid() && current == old(level) && level == Clamp(l)
    {
      current := level;
      if l <= LevelDebug {
        level := LevelDebug;
      } else if l >= LevelFatal {
        level := LevelFatal;
      } else {
        level := l;
      }
    }

    /** SetFatalExiter: store the exiter and return the previous one. */
    method SetFatalExiter(f: Exiter) returns (current: Exiter)
      modifies this`exiter
      ensures current == old(exiter) && exiter == f
    {
      current := exiter;
      exiter := f;
    }

    /** SetLogger: every later message goes to `l`. */
    method SetLogger(l: Backend)
      modifies this`backend
      ensures backend == l
    {
      backend := l;
    }

    /**
     * The common body of Debugf..Criticalf: when the level lets the
     * severity pass, retrieve the call info and send it with the message.
     * `panicked` reports the panic of retrieveCallInfo, which sends nothing.
     */
    method Logf(s: Severity, caller: Caller, msg: string) returns (panicked: bool)
      requires s != Fatal
      modifies this`events
      ensures events == old(events) + (if Passes(level, s) then Emitted(backend, s, caller, msg) else [])
      ensures panicked <==> Passes(level, s) && RetrieveCallInfo(caller).None?
    {
      panicked := false;
      if level <= Rank(s) {
        var ci := RetrieveCallInfo(caller);
        if ci.None? {
          return true;
        }
        events := events + [Sent(backend, s, InfoFor(s, ci.value), msg)];
      }
    }

    /** Debugf: gated at Debug, verbose call info. */
    method Debugf(caller: Caller, msg: string) returns (panicked: bool)
      modifies this`events
      ensures events == old(events) + (if Passes(level, Debug) then Emitted(backend, Debug, caller, msg) else [])
      ensures panicked <==> Passes(level, Debug) && RetrieveCallInfo(caller).None?
    {
      panicked := Logf(Debug, caller, msg);
    }

    /** Infof: gated at Info, short call info. */
    method Infof(caller: Caller, msg: string) returns (panicked: bool)
      modifies this`events
      ensures events == old(events) + (if Passes(level, Info) then Emitted(backend, Info, caller, msg) else [])
      ensures panicked <==> Passes(level, Info) && RetrieveCallInfo(caller).None?
    {
      panicked := Logf(Info, caller, msg);
    }

    /** Warningf: gated at Warning, short call info. */
    method Warningf(caller: Caller, msg: string) returns (panicked: bool)
      modifies this`events
      ensures events == old(events) + (if Passes(level, Warning) then Emitted(backend, Warning, caller, msg) else [])
      ensures panicked <==> Passes(level, Warning) && RetrieveCallInfo(caller).None?
    {
      panicked := Logf(Warning, caller, msg);
    }

    /** Errorf: gated at Error, short call info. */
    method Errorf(caller: Caller, msg: string) returns (panicked: bool)
      modifies this`events
      ensures events == old(events) + (if Passes(level, Error) then Emitted(backend, Error, caller, msg) else [])
      ensures panicked <==> Passes(level, Error) && RetrieveCallInfo(caller).None?
    {
      panicked := Logf(Error, caller, msg);
    }

    /** Criticalf: gated at Critical, verbose call info. */
    method Criticalf(caller: Caller, msg: string) returns (panicked: bool)
      modifies this`events
      ensures events == old(events) + (if Passes(level, Critical) then Emitted(backend, Critical, caller, msg) else [])
      ensures panicked <==> Passes(level, Critical) && RetrieveCallInfo(caller).None?
    {
      panicked := Logf(Critical, caller, msg);
    }

    /** Fatalf: whatever the level, send the message with verbose call info, then call the exiter. */
    method Fatalf(caller: Caller, msg: string) returns (panicked: bool)
      modifies this`events
      ensures panicked <==> RetrieveCallInfo(caller).None?
      ensures !panicked ==> events == old(events) + Emitted(backend, Fatal, caller, msg) + [Exited(exiter)]
      ensures panicked ==> events == old(events)
    {
      var ci := RetrieveCallInfo(caller);
      if ci.None? {
        return true;
      }
      events := events + [Sent(backend, Fatal, VerboseFormat(ci.value), msg)];
      events := events + [Exited(exiter)];
      panicked := false;
    }
  }

  /** Setting a level and reading it back gives the clamped level; the previous one was the default Info. */
  method LevelRoundTrip(l: int) returns (previous: int, now: int)
    ensures previous == LevelInfo && now == Clamp(l)
    ensures LevelDebug <= l <= LevelFatal ==> now == l
  {
    var lc := new LogControl();
    previous := lc.SetLevel(l);
    now := lc.Level();
  }

  /**
   * One call site at the default level: Debugf sends nothing, Infof sends
   * the short call info, Fatalf sends the verbose one and then exits.
   * A call site whose name makes retrieveCallInfo panic sends nothing.
   */
  method DefaultLevelGate(caller: Caller, msg: string) returns (events: seq<Event>)
    ensures RetrieveCallInfo(caller).None? ==> events == []
    ensures RetrieveCallInfo(caller).Some? ==> var ci := RetrieveCallInfo(caller).value;
      events == [Sent(StandardLogger(Stdout), Info, ShortFormat(ci), msg),
                 Sent(StandardLogger(Stdout), Fatal, VerboseFormat(ci), msg),
                 Exited(OsFatalExiter)]
  {
    var lc := new LogControl();
    var p := lc.Debugf(caller, msg);
    p := lc.Infof(caller, msg);
    if p {
      return [];
    }
    p := lc.Fatalf(caller, msg);
    events := lc.events;
  }

  /**
   * A function name made of dot-free segments, the one before the last
   * neither empty nor a receiver, and a file path: the call info gives
   * back the package segments joined, the last segment and the base name.
   */
  lemma PlainCallInfo(dir: string, base: string, parts: seq<string>, line: int)
    requires |parts| >= 2 && forall i | 0 <= i < |parts| :: '.' !in parts[i]
    requires parts[|parts| - 2] != "" && parts[|parts| - 2][0] != '('
    requires '/' !in base
    ensures RetrieveCallInfo(Caller(dir + "/" + base, Join(parts, "."), line))
      == Some(CallInfo(Join(parts[..|parts| - 1], "."), base, parts[|parts| - 1], line))
  {
    SplitJoin(parts, '.');
    BaseName(dir, base);
    PlainCallOf(Caller(dir + "/" + base, Join(parts, "."), line), parts, base);
  }

  /**
   * The same for a method: the segment before the last is a receiver
   * "(T)" or "(*T)" and becomes part of the function name.
   */
  lemma MethodCallInfo(dir: string, base: string, parts: seq<string>, line: int)
    requires |parts| >= 2 && forall i | 0 <= i < |parts| :: '.' !in parts[i]
    requires parts[|parts| - 2] != "" && parts[|parts| - 2][0] == '('
    requires '/' !in base
    ensures RetrieveCallInfo(Caller(dir + "/" + base, Join(parts, "."), line))
      == Some(CallInfo(Join(parts[..|parts| - 2], "."), base, parts[|parts| - 2] + "." + parts[|parts| - 1], line))
  {
    SplitJoin(parts, '.');
    BaseName(dir, base);
    MethodCallOf(Caller(dir + "/" + base, Join(parts, "."), line), parts, base);
  }

  /** PlainCallInfo once the split and the file name are known. */
  lemma PlainCallOf(caller: Caller, parts: seq<string>, base: string)
    requires Split(caller.funcName, '.') == parts && FileName(caller.file) == base
    requires |parts| >= 2 && parts[|parts| - 2] != "" && parts[|parts| - 2][0] != '('
    ensures RetrieveCallInfo(caller) == Some(CallInfo(Join(parts[..|parts| - 1], "."), base, parts[|parts| - 1], caller.line))
  {
  }

  /** MethodCallInfo once the split and the file name are known. */
  lemma MethodCallOf(caller: Caller, parts: seq<string>, base: string)
    requires Split(caller.funcName, '.') == parts && FileName(caller.file) == base
    requires |parts| >= 2 && parts[|parts| - 2] != "" && parts[|parts| - 2][0] == '('
    ensures RetrieveCallInfo(caller)
      == Some(CallInfo(Join(parts[..|parts| - 2], "."), base, parts[|parts| - 2] + "." + parts[|parts| - 1], caller.line))
  {
  }

  /** The file name of a path is what follows its last slash. */
  lemma BaseName(dir: string, base: string)
    requires '/' !in base
    ensures FileName(dir + "/" + base) == base
  {
    AfterLast(dir, '/', base);
  }
}
