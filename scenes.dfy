/**
 * The error kinds of v1/scene/errors.go. The external errors package that
 * formats their messages is not part of this model; an error is its kind
 * and the values its message is built from.
 */
module SceneErrors {
  /** Which of the two timers ended a scene. */
  datatype TimeoutKind = Inactivity | Absolute

  datatype Error =
    | SceneEnded
    | Timeout(kind: TimeoutKind, at: int)
    | PropAlreadyExist(key: string)
    | PropNotFound(key: string)
    | CleanupFailed(key: string, cause: string)
    | NoSubscriber(topic: string)
    | WaitedTooLong(topic: string)

  /** The numeric code of an error kind: `iota + 1`, so 1 to 7 in declaration order. */
  function Code(e: Error): (c: int)
    ensures 1 <= c <= 7
  {
    match e
    case SceneEnded => 1
    case Timeout(_, _) => 2
    case PropAlreadyExist(_) => 3
    case PropNotFound(_) => 4
    case CleanupFailed(_, _) => 5
    case NoSubscriber(_) => 6
    case WaitedTooLong(_) => 7
  }

  /** Two errors share a code exactly when they are of the same kind, so the `Is...Error` tests tell the kinds apart. */
  lemma CodeIdentifiesKind(a: Error, b: Error)
    ensures Code(a) == Code(b) <==> SameKind(a, b)
  {
  }

  predicate SameKind(a: Error, b: Error)
  {
    || (a.SceneEnded? && b.SceneEnded?)
    || (a.Timeout? && b.Timeout?)
    || (a.PropAlreadyExist? && b.PropAlreadyExist?)
    || (a.PropNotFound? && b.PropNotFound?)
    || (a.CleanupFailed? && b.CleanupFailed?)
    || (a.NoSubscriber? && b.NoSubscriber?)
    || (a.WaitedTooLong? && b.WaitedTooLong?)
  }
}

/**
 * Model of v1/scene/scene.go: the prop table that the scene's backend owns,
 * the three commands that change or read it, the teardown that runs the
 * remaining cleanups, and the façade that shapes values and errors.
 * The backend goroutine only serialises commands, so the table is a class
 * whose methods run one command each.
 */
module Scenes {
  import opened Base
  import opened SceneErrors

  /**
   * A cleanup function: called with the key and the prop, it answers
   * `Some(cause)` when it fails. What it does besides is recorded by the
   * scene as a `Call` in its cleanup log.
   */
  type CleanupFunc<!V> = (string, V) -> Option<string>

  /** A stored prop: its key, its value and an optional cleanup. */
  datatype Box<!V> = Box(key: string, prop: V, cleanup: Option<CleanupFunc<V>>)

  /** One invocation of a cleanup function, with the arguments it was given. */
  datatype Call<V> = Call(key: string, prop: V)

  /** The three command kinds `storeProp`, `fetchProp` and `disposeProp`, with what the envelope carries. */
  datatype Command<!V> = StoreProp(box: Box<V>) | FetchProp(key: string) | DisposeProp(key: string)

  /** The envelope sent back: the box it now holds (when the table had one) and its error. */
  datatype Reply<!V> = Reply(box: Option<Box<V>>, err: Option<Error>)

  /** What running a box's cleanup answers; a box without cleanup never fails. */
  function FailureOf<V>(b: Box<V>): Option<string>
  {
    if b.cleanup.Some? then b.cleanup.value(b.key, b.prop) else None
  }

  /** The cleanup calls that processing a box makes: one when it has a cleanup, none otherwise. */
  function CallsOf<V>(b: Box<V>): seq<Call<V>>
  {
    if b.cleanup.Some? then [Call(b.key, b.prop)] else []
  }

  /** Every key of `order` is in the table. */
  predicate Covers<V>(props: map<string, Box<V>>, order: seq<string>)
  {
    forall j | 0 <= j < |order| :: order[j] in props
  }

  /** `order` lists the keys of the table, each once: one possible order of a `range` over the map. */
  predicate IsOrderOf<V>(props: map<string, Box<V>>, order: seq<string>)
  {
    && Covers(props, order)
    && (forall k | k in props :: k in order)
    && (forall i, j | 0 <= i < j < |order| :: order[i] != order[j])
  }

  /** The index in `order` of the first box whose cleanup fails, or `|order|` when none fails. */
  function FirstFailure<V>(props: map<string, Box<V>>, order: seq<string>): (n: nat)
    requires Covers(props, order)
    ensures n <= |order|
    ensures forall j | 0 <= j < n :: FailureOf(props[order[j]]).None?
    ensures n < |order| ==> FailureOf(props[order[n]]).Some?
  {
    if |order| == 0 then 0
    else if FailureOf(props[order[0]]).Some? then 0
    else 1 + FirstFailure(props, order[1..])
  }

  /** The boxes met by walking the table along `keys`. */
  function Along<V>(props: map<string, Box<V>>, keys: seq<string>): (r: seq<Box<V>>)
    requires Covers(props, keys)
    ensures |r| == |keys|
  {
    seq(|keys|, j requires 0 <= j < |keys| => props[keys[j]])
  }

  /** The cleanup calls made by processing `boxes` in order. */
  function CallsList<V>(boxes: seq<Box<V>>): seq<Call<V>>
  {
    if |boxes| == 0 then [] else CallsList(boxes[..|boxes| - 1]) + CallsOf(boxes[|boxes| - 1])
  }

  /** What cleanupAllProps returns: nothing when every cleanup succeeds, else CleanupFailed for the first failing key. */
  function TeardownResult<V>(props: map<string, Box<V>>, order: seq<string>): Option<Error>
    requires Covers(props, order)
  {
    var n := FirstFailure(props, order);
    if n == |order| then None else Some(CleanupFailed(order[n], FailureOf(props[order[n]]).value))
  }

  /** How many boxes the teardown reaches: all of them, or up to and including the first failing one. */
  function Reached<V>(props: map<string, Box<V>>, order: seq<string>): (n: nat)
    requires Covers(props, order)
    ensures n <= |order|
  {
    var f := FirstFailure(props, order);
    if f == |order| then f else f + 1
  }

  /** The boxes the teardown processes, in walking order. */
  function Walk<V>(props: map<string, Box<V>>, order: seq<string>): seq<Box<V>>
    requires Covers(props, order)
  {
    Along(props, order[..Reached(props, order)])
  }

  /**
   * The teardown succeeds exactly when no cleanup of the table fails,
   * whichever order the map is walked in.
   */
  lemma TeardownSucceedsIffAllClean<V>(props: map<string, Box<V>>, order: seq<string>)
    requires IsOrderOf(props, order)
    ensures TeardownResult(props, order).None? <==> forall k | k in props :: FailureOf(props[k]).None?
  {
    if TeardownResult(props, order).None? {
      forall k | k in props
        ensures FailureOf(props[k]).None?
      {
        var j :| 0 <= j < |order| && order[j] == k;
      }
    } else {
      var n := FirstFailure(props, order);
      assert order[n] in props && FailureOf(props[order[n]]).Some?;
    }
  }

  /** Two walks over the same table agree on whether the teardown succeeds. */
  lemma TeardownOrderIndependent<V>(props: map<string, Box<V>>, o1: seq<string>, o2: seq<string>)
    requires IsOrderOf(props, o1) && IsOrderOf(props, o2)
    ensures TeardownResult(props, o1).None? <==> TeardownResult(props, o2).None?
  {
    TeardownSucceedsIffAllClean(props, o1);
    TeardownSucceedsIffAllClean(props, o2);
  }

  /** The first failure is at `i` when every cleanup before `i` succeeds and the one at `i`, if any, fails. */
  lemma {:induction false} FirstFailureAt<V>(props: map<string, Box<V>>, order: seq<string>, i: nat)
    requires Covers(props, order) && i <= |order|
    requires forall j | 0 <= j < i :: FailureOf(props[order[j]]).None?
    requires i < |order| ==> FailureOf(props[order[i]]).Some?
    ensures FirstFailure(props, order) == i
    decreases i
  {
    if i > 0 {
      var rest := order[1..];
      assert FailureOf(props[order[0]]).None?;
      forall j | 0 <= j < i - 1
        ensures FailureOf(props[rest[j]]).None?
      {
        assert rest[j] == order[j + 1];
      }
      if i - 1 < |rest| {
        assert rest[i - 1] == order[i];
      }
      FirstFailureAt(props, rest, i - 1);
    }
  }

  /**
   * A failed teardown names the first key, in walking order, whose cleanup
   * fails, with that cleanup's cause; every key before it was cleaned up
   * without failure.
   */
  lemma TeardownFirstFailure<V>(props: map<string, Box<V>>, order: seq<string>, i: nat)
    requires Covers(props, order)
    requires i < |order| && FailureOf(props[order[i]]).Some?
    requires forall j | 0 <= j < i :: FailureOf(props[order[j]]).None?
    ensures TeardownResult(props, order) == Some(CleanupFailed(order[i], FailureOf(props[order[i]]).value))
    ensures Reached(props, order) == i + 1
  {
    FirstFailureAt(props, order, i);
  }

  /** A teardown in which no cleanup fails reaches every box and returns nothing. */
  lemma TeardownAllClean<V>(props: map<string, Box<V>>, order: seq<string>)
    requires Covers(props, order)
    requires forall j | 0 <= j < |order| :: FailureOf(props[order[j]]).None?
    ensures TeardownResult(props, order).None? && Reached(props, order) == |order|
  {
    FirstFailureAt(props, order, |order|);
  }

  /**
   * The teardown of a table holding one key reaches that box and fails
   * exactly when its cleanup fails.
   */
  lemma TeardownSingle<V>(props: map<string, Box<V>>, k: string)
    requires k in props
    ensures Walk(props, [k]) == [props[k]]
    ensures TeardownResult(props, [k]) == if FailureOf(props[k]).Some? then Some(CleanupFailed(k, FailureOf(props[k]).value)) else None
    ensures CallsList([props[k]]) == CallsOf(props[k])
  {
    assert [k][1..] == [];
    assert [props[k]][..0] == [];
  }

  /** Walking one more key meets one more box. */
  lemma AlongSnoc<V>(props: map<string, Box<V>>, keys: seq<string>, i: nat)
    requires Covers(props, keys) && i < |keys|
    ensures Along(props, keys[..i + 1]) == Along(props, keys[..i]) + [props[keys[i]]]
  {
  }

  /** Processing one more box appends that box's calls. */
  lemma CallsListSnoc<V>(boxes: seq<Box<V>>, b: Box<V>)
    ensures CallsList(boxes + [b]) == CallsList(boxes) + CallsOf(b)
  {
    assert (boxes + [b])[..|boxes|] == boxes;
  }

  /** Processing two runs of boxes one after the other makes the calls of each, in turn. */
  lemma {:induction false} CallsListConcat<V>(a: seq<Box<V>>, b: seq<Box<V>>)
    ensures CallsList(a + b) == CallsList(a) + CallsList(b)
    decreases |b|
  {
    if |b| == 0 {
      assert a + b == a;
    } else {
      var b', x := b[..|b| - 1], b[|b| - 1];
      assert a + b == (a + b') + [x];
      assert b == b' + [x];
      calc {
        CallsList(a + b);
        { CallsListSnoc(a + b', x); }
        CallsList(a + b') + CallsOf(x);
        { CallsListConcat(a, b'); }
        CallsList(a) + CallsList(b') + CallsOf(x);
        { CallsListSnoc(b', x); }
        CallsList(a) + CallsList(b);
      }
    }
  }

  /** Taking the same element out of two reorderings leaves two reorderings. */
  lemma RemoveOne<T>(a: seq<T>, x: T, b1: seq<T>, b2: seq<T>)
    requires multiset(a + [x]) == multiset(b1 + [x] + b2)
    ensures multiset(a) == multiset(b1 + b2)
  {
    assert multiset(a + [x]) == multiset(a) + multiset{x};
    assert multiset(b1 + [x] + b2) == multiset(b1 + b2) + multiset{x};
    assert multiset(a) == multiset(a + [x]) - multiset{x};
    assert multiset(b1 + b2) == multiset(b1 + [x] + b2) - multiset{x};
  }

  /**
   * The calls of a run of boxes depend only on which boxes it holds, not on
   * their order: two runs that are reorderings of each other make the same
   * calls, each as often.
   */
  lemma {:induction false} CallsListPermutation<V>(a: seq<Box<V>>, b: seq<Box<V>>)
    requires multiset(a) == multiset(b)
    ensures multiset(CallsList(a)) == multiset(CallsList(b))
    decreases |a|
  {
    if |a| == 0 {
      assert |b| == |multiset(b)| == 0;
    } else {
      var x, a' := a[|a| - 1], a[..|a| - 1];
      assert a == a' + [x];
      assert x in multiset(b);
      var k :| 0 <= k < |b| && b[k] == x;
      var b1, b2 := b[..k], b[k + 1..];
      assert b == b1 + [x] + b2;
      RemoveOne(a', x, b1, b2);
      CallsListPermutation(a', b1 + b2);
      CallsListSnoc(a', x);
      CallsListAround(b1, x, b2);
      calc {
        multiset(CallsList(a));
        multiset(CallsList(a') + CallsOf(x));
        multiset(CallsList(a')) + multiset(CallsOf(x));
        multiset(CallsList(b1 + b2)) + multiset(CallsOf(x));
        multiset(CallsList(b));
      }
    }
  }

  /** A box in the middle of a run adds its calls to those of the rest, as far as multiplicities go. */
  lemma CallsListAround<V>(b1: seq<Box<V>>, x: Box<V>, b2: seq<Box<V>>)
    ensures multiset(CallsList(b1 + [x] + b2)) == multiset(CallsList(b1 + b2)) + multiset(CallsOf(x))
  {
    CallsListConcat(b1, b2);
    CallsListConcat(b1 + [x], b2);
    CallsListSnoc(b1, x);
  }

  /**
   * How the backend loop ended: a stop request (`l.ShallStop()`) or one of
   * the two timers firing at a point in time.
   */
  datatype Exit = StopRequested | TimedOut(kind: TimeoutKind, at: int)

  /** The error the loop body returns for its exit, before the deferred cleanup runs. */
  function ExitError(exit: Exit): (e: Option<Error>)
    ensures e.Some? <==> exit.TimedOut?
  {
    match exit
    case StopRequested => None
    case TimedOut(kind, at) => Some(Timeout(kind, at))
  }

  /**
   * backendLoop as written: the deferred function assigns the teardown
   * result to the named result `err`, so whatever the loop returned is
   * replaced by it.
   */
  function LoopResultAsWritten(exit: Exit, teardown: Option<Error>): Option<Error>
  {
    teardown
  }

  /** As written, a scene that times out and cleans up without failure ends without error: the timeout is lost. */
  lemma TimeoutLostAsWritten()
    ensures ExitError(TimedOut(Absolute, 60)) == Some(Timeout(Absolute, 60))
    ensures LoopResultAsWritten(TimedOut(Absolute, 60), None) == None
  {
  }

  /**
   * backendLoop as evidently intended: the loop's own error is kept, and
   * the teardown's is reported when the loop ended without one.
   */
  function LoopResult(exit: Exit, teardown: Option<Error>): (r: Option<Error>)
    ensures exit.TimedOut? ==> r == Some(Timeout(exit.kind, exit.at))
    ensures exit.StopRequested? ==> r == teardown
  {
    var e := ExitError(exit);
    if e.Some? then e else teardown
  }

  /** With the intended result, a timeout is never lost, and a stopped scene reports its teardown. */
  lemma TimeoutKept(exit: Exit, teardown: Option<Error>)
    ensures LoopResult(exit, teardown).None? <==> exit == StopRequested && teardown.None?
  {
  }

  // ----- Bookkeeping of boxes and cleanup calls -----

  /** Every box is stored under its own key; so no two keys hold the same box. */
  predicate Keyed<V>(props: map<string, Box<V>>)
  {
    forall k | k in props :: props[k].key == k
  }

  /** Storing a box under an absent key adds that one box to the table's boxes. */
  lemma StoreValues<V>(props: map<string, Box<V>>, box: Box<V>)
    requires Keyed(props) && box.key !in props
    ensures Keyed(props[box.key := box])
    ensures multiset(props[box.key := box].Values) == multiset(props.Values) + multiset{box}
  {
    var props' := props[box.key := box];
    assert props'.Values == props.Values + {box} by {
      forall b | b in props'.Values
        ensures b in props.Values + {box}
      {
        var k :| k in props' && props'[k] == b;
        if k != box.key {
          assert props[k] == b;
        }
      }
      forall b | b in props.Values
        ensures b in props'.Values
      {
        var k :| k in props && props[k] == b;
        assert props'[k] == b;
      }
      assert props'[box.key] == box;
    }
    assert box !in props.Values;
  }

  /** Removing a key takes its one box out of the table's boxes. */
  lemma DisposeValues<V>(props: map<string, Box<V>>, key: string)
    requires Keyed(props) && key in props
    ensures Keyed(props - {key})
    ensures multiset(props.Values) == multiset((props - {key}).Values) + multiset{props[key]}
  {
    var props' := props - {key};
    assert props.Values == props'.Values + {props[key]} by {
      forall b | b in props.Values
        ensures b in props'.Values + {props[key]}
      {
        var k :| k in props && props[k] == b;
        if k != key {
          assert props'[k] == b;
        }
      }
    }
    assert props[key] !in props'.Values;
  }

  /** Without its first key, an order of the table is an order of the rest of the table. */
  lemma RestIsOrder<V>(props: map<string, Box<V>>, order: seq<string>)
    requires IsOrderOf(props, order) && |order| > 0
    ensures IsOrderOf(props - {order[0]}, order[1..])
  {
    var props', rest := props - {order[0]}, order[1..];
    forall j | 0 <= j < |rest|
      ensures rest[j] in props'
    {
      assert rest[j] == order[j + 1] != order[0];
    }
    forall k | k in props'
      ensures k in rest
    {
      var j :| 0 <= j < |order| && order[j] == k;
      assert rest[j - 1] == k;
    }
    forall i, j | 0 <= i < j < |rest|
      ensures rest[i] != rest[j]
    {
      assert rest[i] == order[i + 1] && rest[j] == order[j + 1];
    }
  }

  /** A walk along an order of the whole table meets each of its boxes once. */
  lemma {:induction false} AlongValues<V>(props: map<string, Box<V>>, order: seq<string>)
    requires Keyed(props) && IsOrderOf(props, order)
    ensures multiset(Along(props, order)) == multiset(props.Values)
    decreases |order|
  {
    if |order| == 0 {
      assert props.Keys == {};
      assert props.Values == {};
    } else {
      var k, rest := order[0], order[1..];
      var props' := props - {k};
      RestIsOrder(props, order);
      AlongValues(props', rest);
      DisposeValues(props, k);
      assert Along(props, order) == [props[k]] + Along(props', rest);
    }
  }

  /** The log is the calls of the removed boxes, in order. */
  ghost predicate Logged<V>(props: map<string, Box<V>>, log: seq<Call<V>>, removed: seq<Box<V>>)
  {
    Keyed(props) && log == CallsList(removed)
  }

  /** Every box ever stored is either removed or still in the table, exactly once. */
  ghost predicate Balanced<V>(props: map<string, Box<V>>, stored: seq<Box<V>>, removed: seq<Box<V>>)
  {
    multiset(stored) == multiset(removed) + multiset(props.Values)
  }

  /** Storing a box under an absent key keeps the books. */
  lemma StoreKeeps<V>(props: map<string, Box<V>>, log: seq<Call<V>>, stored: seq<Box<V>>, removed: seq<Box<V>>, box: Box<V>)
    requires Logged(props, log, removed) && Balanced(props, stored, removed) && box.key !in props
    ensures Logged(props[box.key := box], log, removed)
    ensures Balanced(props[box.key := box], stored + [box], removed)
  {
    StoreValues(props, box);
  }

  /** Removing a box and running its cleanup keeps the books. */
  lemma DisposeKeeps<V>(props: map<string, Box<V>>, log: seq<Call<V>>, stored: seq<Box<V>>, removed: seq<Box<V>>, key: string)
    requires Logged(props, log, removed) && Balanced(props, stored, removed) && key in props
    ensures Logged(props - {key}, log + CallsOf(props[key]), removed + [props[key]])
    ensures Balanced(props - {key}, stored, removed + [props[key]])
  {
    DisposeValues(props, key);
    CallsListSnoc(removed, props[key]);
  }

  /** The teardown keeps the log in step with the removed boxes. */
  lemma TeardownKeeps<V>(props: map<string, Box<V>>, log: seq<Call<V>>, removed: seq<Box<V>>, order: seq<string>)
    requires Logged(props, log, removed) && Covers(props, order)
    ensures Logged(props, log + CallsList(Walk(props, order)), removed + Walk(props, order))
  {
    CallsListConcat(removed, Walk(props, order));
  }

  /**
   * A teardown without failure, from a state in which every stored box is
   * either removed or in the table, leaves every stored box removed.
   */
  lemma TornDown<V>(stored: seq<Box<V>>, removed: seq<Box<V>>, props: map<string, Box<V>>, order: seq<string>)
    requires Keyed(props) && IsOrderOf(props, order) && Balanced(props, stored, removed)
    requires TeardownResult(props, order).None?
    ensures multiset(removed + Walk(props, order)) == multiset(stored)
    ensures multiset(CallsList(removed + Walk(props, order))) == multiset(CallsList(stored))
  {
    assert order[..|order|] == order;
    AlongValues(props, order);
    CallsListPermutation(removed + Walk(props, order), stored);
  }

  /**
   * A teardown, whether or not it fails, removes only boxes still in the
   * table: every box ever stored is removed, and its cleanup called, at
   * most once.
   */
  lemma TeardownBounded<V>(stored: seq<Box<V>>, removed: seq<Box<V>>, props: map<string, Box<V>>, order: seq<string>)
    requires Keyed(props) && IsOrderOf(props, order) && Balanced(props, stored, removed)
    ensures multiset(removed + Walk(props, order)) <= multiset(stored)
    ensures multiset(CallsList(removed + Walk(props, order))) <= multiset(CallsList(stored))
  {
    var n := Reached(props, order);
    var all := Along(props, order);
    AlongValues(props, order);
    AlongPrefix(props, order, n);
    PrefixBounded(stored, removed, all, n);
  }

  /** Walking a prefix of the order visits a prefix of the boxes. */
  lemma AlongPrefix<V>(props: map<string, Box<V>>, order: seq<string>, n: nat)
    requires Covers(props, order) && n <= |order|
    ensures Along(props, order[..n]) == Along(props, order)[..n]
  {
  }

  /** What was removed plus a prefix of what is left is bounded by `stored`, and so are its cleanups. */
  lemma PrefixBounded<V>(stored: seq<Box<V>>, removed: seq<Box<V>>, all: seq<Box<V>>, n: nat)
    requires multiset(stored) == multiset(removed) + multiset(all) && n <= |all|
    ensures multiset(removed + all[..n]) <= multiset(stored)
    ensures multiset(CallsList(removed + all[..n])) <= multiset(CallsList(stored))
  {
    var rest := all[n..];
    assert all == all[..n] + rest;
    assert removed + all[..n] + rest == removed + all;
    CallsListPermutation(stored, removed + all[..n] + rest);
    CallsListConcat(removed + all[..n], rest);
  }

  /**
   * The books after a teardown, for the removals and the log it leaves: the
   * log matches the removals, and both are bounded by what was stored,
   * exactly so when nothing fails.
   */
  lemma TeardownBooks<V>(stored: seq<Box<V>>, removed: seq<Box<V>>, log: seq<Call<V>>, props: map<string, Box<V>>, order: seq<string>,
                         removed': seq<Box<V>>, log': seq<Call<V>>)
    requires Logged(props, log, removed) && IsOrderOf(props, order) && Balanced(props, stored, removed)
    requires removed' == removed + Walk(props, order) && log' == log + CallsList(Walk(props, order))
    ensures Logged(props, log', removed')
    ensures multiset(removed') <= multiset(stored) && multiset(log') <= multiset(CallsList(stored))
    ensures TeardownResult(props, order).None? ==> multiset(removed') == multiset(stored) && multiset(log') == multiset(CallsList(stored))
  {
    TeardownKeeps(props, log, removed, order);
    TeardownBounded(stored, removed, props, order);
    if TeardownResult(props, order).None? {
      TornDown(stored, removed, props, order);
    }
  }

  /**
   * The backend of one scene. `props` is the prop table kept by the backend
   * goroutine, `log` the cleanup calls made so far, `ended` whether the
   * backend has stopped, and `result` the error it stopped with. The ghost
   * field `stored` lists every box ever stored, `removed` every box that has
   * been disposed of or torn down, in that order.
   */
  class Scene<V> {
    var props: map<string, Box<V>>
    var log: seq<Call<V>>
    var ended: bool
    var result: Option<Error>
    ghost var stored: seq<Box<V>>
    ghost var removed: seq<Box<V>>

    /**
     * Keys are unique and hold their own boxes, the log is the calls of the
     * removed boxes, and while the scene runs every stored box is either
     * still in the table or removed, exactly once.
     */
    ghost predicate Valid()
      reads this
    {
      Logged(props, log, removed) && (!ended ==> Balanced(props, stored, removed))
    }

    /** StartScene: an empty table and a running backend. */
    constructor ()
      ensures Valid() && !ended && result.None?
      ensures props == map[] && log == [] && stored == [] && removed == []
    {
      props := map[];
      log := [];
      ended := false;
      result := None;
      stored := [];
      removed := [];
    }

    /** The `storeProp` case: insert the box when its key is absent, else PropAlreadyExist and no change. */
    method StoreProp(box: Box<V>) returns (reply: Reply<V>)
      requires Valid() && !ended
      modifies this`props, this`stored
      ensures Valid()
      ensures box.key !in old(props) ==> props == old(props)[box.key := box] && reply == Reply(Some(box), None)
      ensures box.key !in old(props) ==> stored == old(stored) + [box]
      ensures box.key in old(props) ==> props == old(props) && stored == old(stored)
      ensures box.key in old(props) ==> reply == Reply(Some(box), Some(PropAlreadyExist(box.key)))
    {
      if box.key in props {
        reply := Reply(Some(box), Some(PropAlreadyExist(box.key)));
      } else {
        StoreKeeps(props, log, stored, removed, box);
        props, stored := props[box.key := box], stored + [box];
        reply := Reply(Some(box), None);
      }
    }

    /** The `fetchProp` case: the stored box, or PropNotFound; the table is only read. */
    method FetchProp(key: string) returns (reply: Reply<V>)
      ensures key in props ==> reply == Reply(Some(props[key]), None)
      ensures key !in props ==> reply == Reply(None, Some(PropNotFound(key)))
    {
      if key in props {
        reply := Reply(Some(props[key]), None);
      } else {
        reply := Reply(None, Some(PropNotFound(key)));
      }
    }

    /**
     * The `disposeProp` case: remove the box and then run its cleanup, once,
     * with its key and prop; a failing cleanup gives CleanupFailed but the
     * box is gone all the same. An absent key gives PropNotFound and no change.
     */
    method DisposeProp(key: string) returns (reply: Reply<V>)
      requires Valid() && !ended
      modifies this`props, this`log, this`removed
      ensures Valid()
      ensures key !in old(props) ==> props == old(props) && log == old(log) && removed == old(removed)
      ensures key !in old(props) ==> reply == Reply(None, Some(PropNotFound(key)))
      ensures key in old(props) ==>
        && props == old(props) - {key}
        && removed == old(removed) + [old(props)[key]]
        && log == old(log) + CallsOf(old(props)[key])
        && reply.box == Some(old(props)[key])
        && reply.err == (if FailureOf(old(props)[key]).Some? then Some(CleanupFailed(key, FailureOf(old(props)[key]).value)) else None)
    {
      if key !in props {
        reply := Reply(None, Some(PropNotFound(key)));
        return;
      }
      var box := props[key];
      DisposeKeeps(props, log, stored, removed, key);
      props, removed := props - {key}, removed + [box];
      reply := Reply(Some(box), None);
      var cerr: Option<string> := None;
      if box.cleanup.Some? {
        cerr := box.cleanup.value(box.key, box.prop);
      }
      log := log + CallsOf(box);
      if cerr.Some? {
        reply := Reply(Some(box), Some(CleanupFailed(box.key, cerr.value)));
      }
    }

    /** processCommand: run one command against the table; no other key is touched. */
    method ProcessCommand(command: Command<V>) returns (reply: Reply<V>)
      requires Valid() && !ended
      modifies this`props, this`log, this`stored, this`removed
      ensures Valid()
      ensures command.StoreProp? && command.box.key !in old(props) ==>
        && props == old(props)[command.box.key := command.box]
        && stored == old(stored) + [command.box]
        && log == old(log) && removed == old(removed)
        && reply == Reply(Some(command.box), None)
      ensures command.StoreProp? && command.box.key in old(props) ==>
        && props == old(props) && stored == old(stored) && log == old(log) && removed == old(removed)
        && reply == Reply(Some(command.box), Some(PropAlreadyExist(command.box.key)))
      ensures command.FetchProp? ==>
        && props == old(props) && stored == old(stored) && log == old(log) && removed == old(removed)
        && reply == (if command.key in props then Reply(Some(props[command.key]), None) else Reply(None, Some(PropNotFound(command.key))))
      ensures command.DisposeProp? && command.key !in old(props) ==>
        && props == old(props) && stored == old(stored) && log == old(log) && removed == old(removed)
        && reply == Reply(None, Some(PropNotFound(command.key)))
      ensures command.DisposeProp? && command.key in old(props) ==>
        && props == old(props) - {command.key}
        && stored == old(stored)
        && removed == old(removed) + [old(props)[command.key]]
        && log == old(log) + CallsOf(old(props)[command.key])
        && reply.box == Some(old(props)[command.key])
        && reply.err == (if FailureOf(old(props)[command.key]).Some? then Some(CleanupFailed(command.key, FailureOf(old(props)[command.key]).value)) else None)
      ensures forall k | k != CommandKey(command) :: (k in props <==> k in old(props)) && (k in props ==> props[k] == old(props)[k])
    {
      ghost var table := props;
      match command
      case StoreProp(box) =>
        reply := StoreProp(box);
        InsertKeepsOthers(table, box.key, box);
      case FetchProp(key) =>
        reply := FetchProp(key);
      case DisposeProp(key) =>
        reply := DisposeProp(key);
        RemoveKeepsOthers(table, key);
    }

    /**
     * The backend's deferred teardown: cleanupAllProps over the table in
     * `order`, with the calls it makes logged and the boxes it walks
     * removed. Failing or not, no box is removed and no cleanup called more
     * than once; without a failure, exactly the stored boxes are removed and
     * each of their cleanups called once.
     */
    method Teardown(order: seq<string>) returns (teardown: Option<Error>)
      requires Logged(props, log, removed) && Balanced(props, stored, removed) && IsOrderOf(props, order)
      modifies this`log, this`removed
      ensures ended == old(ended) && result == old(result)
      ensures Logged(props, log, removed)
      ensures teardown == TeardownResult(props, order)
      ensures log == old(log) + CallsList(Walk(props, order)) && removed == old(removed) + Walk(props, order)
      ensures multiset(removed) <= multiset(stored) && multiset(log) <= multiset(CallsList(stored))
      ensures teardown.None? ==> multiset(removed) == multiset(stored) && multiset(log) == multiset(CallsList(stored))
    {
      var made;
      teardown, made := CleanupAllProps(props, order);
      // The books are settled on snapshots of the state: the multiset facts
      // come last, once the new fields are tied to the snapshots.
      ghost var table, stored0, removed0, log0, ended0, result0 := props, stored, removed, log, ended, result;
      assert Logged(table, log0, removed0) && Balanced(table, stored0, removed0);
      TeardownKeeps(table, log0, removed0, order);
      log, removed := log + made, removed + Walk(table, order);
      assert props == table && stored == stored0 && ended == ended0 && result == result0;
      assert removed == removed0 + Walk(table, order) && log == log0 + CallsList(Walk(table, order));
      TeardownBooks(stored0, removed0, log0, table, order, removed, log);
    }

    /**
     * Stop: end the backend, run the teardown and keep its result. A scene
     * that has already ended answers with the result it ended with. When
     * the teardown succeeds, every box ever stored has been removed, and
     * the log holds the cleanup calls of exactly those boxes, each once;
     * when it fails, no box has been removed and no cleanup called more
     * than once.
     */
    method Stop(order: seq<string>) returns (err: Option<Error>)
      requires Valid() && IsOrderOf(props, order)
      modifies this`log, this`removed, this`ended, this`result
      ensures Valid() && ended && err == result
      ensures old(ended) ==> err == old(result) && log == old(log)
      ensures !old(ended) ==> err == LoopResult(StopRequested, TeardownResult(props, order))
      ensures !old(ended) ==> log == old(log) + CallsList(Walk(props, order))
      ensures !old(ended) && err.None? ==> multiset(removed) == multiset(stored)
      ensures !old(ended) && err.None? ==> multiset(log) == multiset(CallsList(stored))
      ensures !old(ended) ==> multiset(removed) <= multiset(stored) && multiset(log) <= multiset(CallsList(stored))
    {
      if ended {
        return result;
      }
      ended := true;
      result := LoopResult(StopRequested, TeardownResult(props, order));
      err := result;
      var teardown := Teardown(order);
    }

    /** StoreClean: store a prop with an optional cleanup; SceneEnded once the scene has ended. */
    method StoreClean(key: string, prop: V, cleanup: Option<CleanupFunc<V>>) returns (err: Option<Error>)
      requires Valid()
      modifies this`props, this`stored
      ensures Valid()
      ensures old(ended) ==> err == Some(SceneEnded) && props == old(props)
      ensures !old(ended) && key !in old(props) ==> err.None? && props == old(props)[key := Box(key, prop, cleanup)]
      ensures !old(ended) && key in old(props) ==> err == Some(PropAlreadyExist(key)) && props == old(props)
      ensures !old(ended) && key !in old(props) ==> stored == old(stored) + [Box(key, prop, cleanup)]
      ensures old(ended) || key in old(props) ==> stored == old(stored)
    {
      if ended {
        return Some(SceneEnded);
      }
      var reply := StoreProp(Box(key, prop, cleanup));
      err := reply.err;
    }

    /** Store: StoreClean without a cleanup. */
    method Store(key: string, prop: V) returns (err: Option<Error>)
      requires Valid()
      modifies this`props, this`stored
      ensures Valid()
      ensures old(ended) ==> err == Some(SceneEnded) && props == old(props)
      ensures !old(ended) && key !in old(props) ==> err.None? && props == old(props)[key := Box(key, prop, None)]
      ensures !old(ended) && key in old(props) ==> err == Some(PropAlreadyExist(key)) && props == old(props)
      ensures !old(ended) && key !in old(props) ==> stored == old(stored) + [Box(key, prop, None)]
      ensures old(ended) || key in old(props) ==> stored == old(stored)
    {
      err := StoreClean(key, prop, None);
    }

    /** Fetch: the stored prop, or the error; nothing changes. */
    method Fetch(key: string) returns (r: Result<V, Error>)
      ensures ended ==> r == Err(SceneEnded)
      ensures !ended && key in props ==> r == Ok(props[key].prop)
      ensures !ended && key !in props ==> r == Err(PropNotFound(key))
    {
      if ended {
        return Err(SceneEnded);
      }
      var reply := FetchProp(key);
      if reply.err.Some? {
        return Err(reply.err.value);
      }
      r := Ok(reply.box.value.prop);
    }

    /**
     * Dispose: remove a prop and return it; when its cleanup fails the
     * error is returned instead and the prop is not, although it is gone.
     */
    method Dispose(key: string) returns (r: Result<V, Error>)
      requires Valid()
      modifies this`props, this`log, this`removed
      ensures Valid()
      ensures old(ended) ==> r == Err(SceneEnded) && props == old(props) && log == old(log)
      ensures !old(ended) && key !in old(props) ==> r == Err(PropNotFound(key)) && props == old(props) && log == old(log)
      ensures !old(ended) && key in old(props) ==>
        && props == old(props) - {key}
        && log == old(log) + CallsOf(old(props)[key])
        && r == (if FailureOf(old(props)[key]).Some? then Err(CleanupFailed(key, FailureOf(old(props)[key]).value))
                 else Ok(old(props)[key].prop))
      ensures !old(ended) && key in old(props) ==> removed == old(removed) + [old(props)[key]]
      ensures old(ended) || key !in old(props) ==> removed == old(removed)
    {
      if ended {
        return Err(SceneEnded);
      }
      var reply := DisposeProp(key);
      if reply.err.Some? {
        return Err(reply.err.value);
      }
      r := Ok(reply.box.value.prop);
    }
  }

  /**
   * cleanupAllProps: walk the table in `order` (the order Go's `range`
   * happens to take) and run each cleanup; stop at the first failure. The
   * table is only read; the calls made are returned for the scene's log.
   */
  method CleanupAllProps<V>(props: map<string, Box<V>>, order: seq<string>) returns (err: Option<Error>, made: seq<Call<V>>)
    requires Keyed(props) && IsOrderOf(props, order)
    ensures err == TeardownResult(props, order)
    ensures made == CallsList(Walk(props, order))
  {
    made := [];
    for i := 0 to |order|
      invariant made == CallsList(Along(props, order[..i]))
      invariant forall j | 0 <= j < i :: FailureOf(props[order[j]]).None?
    {
      var box := props[order[i]];
      AlongSnoc(props, order, i);
      CallsListSnoc(Along(props, order[..i]), box);
      var cerr: Option<string> := None;
      if box.cleanup.Some? {
        cerr := box.cleanup.value(box.key, box.prop);
      }
      made := made + CallsOf(box);
      assert made == CallsList(Along(props, order[..i + 1]));
      assert cerr == FailureOf(box);
      if cerr.Some? {
        TeardownFirstFailure(props, order, i);
        assert box.key == order[i];
        assert Walk(props, order) == Along(props, order[..i + 1]);
        return Some(CleanupFailed(box.key, cerr.value)), made;
      }
    }
    TeardownAllClean(props, order);
    return None, made;
  }

  /** Inserting at `key` leaves every other key as it was. */
  lemma InsertKeepsOthers<V>(table: map<string, Box<V>>, key: string, box: Box<V>)
    ensures forall k | k != key :: (k in table[key := box] <==> k in table) && (k in table ==> table[key := box][k] == table[k])
  {
  }

  /** Removing `key` leaves every other key as it was. */
  lemma RemoveKeepsOthers<V>(table: map<string, Box<V>>, key: string)
    ensures forall k | k != key :: (k in table - {key} <==> k in table) && (k in table ==> (table - {key})[k] == table[k])
  {
  }

  /** The key a command is about. */
  function CommandKey<V>(command: Command<V>): string
  {
    match command
    case StoreProp(box) => box.key
    case FetchProp(key) => key
    case DisposeProp(key) => key
  }

  // ----- The scenarios of scene_test.go -----

  /** The props the tests store: Go's `interface{}` values that they use. */
  datatype Value = Int(i: int) | Str(s: string) | Bool(b: bool)

  /**
   * TestSimpleNoTimeout: store, fetch, fetch a missing key, store a key
   * twice, dispose a missing key, dispose, fetch the disposed key, stop.
   */
  method SimpleNoTimeout() returns (stored: Option<Error>, fetched: Result<Value, Error>, missing: Result<Value, Error>,
                                    twice: Option<Error>, disposedMissing: Result<Value, Error>,
                                    disposed: Result<Value, Error>, gone: Result<Value, Error>, stopped: Option<Error>)
    ensures stored.None? && fetched == Ok(Int(4711)) && missing == Err(PropNotFound("bar"))
    ensures twice == Some(PropAlreadyExist("foo")) && disposedMissing == Err(PropNotFound("bar"))
    ensures disposed == Ok(Int(4711)) && gone == Err(PropNotFound("foo")) && stopped.None?
  {
    var scn := new Scene<Value>();
    stored := scn.Store("foo", Int(4711));
    fetched := scn.Fetch("foo");
    missing := scn.Fetch("bar");
    twice := scn.Store("foo", Str("bar"));
    disposedMissing := scn.Dispose("bar");
    disposed := scn.Dispose("foo");
    gone := scn.Fetch("foo");
    stopped := scn.Stop([]);
  }

  /** The cleanup of TestCleanupNoError, which always succeeds. */
  function Succeed(key: string, prop: Value): Option<string>
  {
    None
  }

  /** The cleanup of TestCleanupWithErrors, which always fails with "ouch". */
  function Fail(key: string, prop: Value): Option<string>
  {
    Some("ouch")
  }

  /**
   * TestCleanupNoError: two props with a succeeding cleanup, one disposed
   * and one left to the teardown; both cleanups run once, with their props.
   */
  method CleanupNoError() returns (disposed: Result<Value, Error>, stopped: Option<Error>, cleanups: seq<Call<Value>>)
    ensures disposed == Ok(Int(4711)) && stopped.None?
    ensures cleanups == [Call("foo", Int(4711)), Call("bar", Str("yadda"))]
  {
    var scn := new Scene<Value>();
    disposed := StoreTwoDisposeOne(scn);
    var bar := Box("bar", Str("yadda"), Some(Succeed));
    TeardownSingle(scn.props, "bar");
    assert CallsOf(bar) == [Call("bar", Str("yadda"))];
    stopped := scn.Stop(["bar"]);
    assert scn.log == [Call("foo", Int(4711))] + CallsOf(bar);
    cleanups := scn.log;
  }

  /** The first half of TestCleanupNoError: store "foo" and "bar" with a succeeding cleanup, then dispose "foo". */
  method StoreTwoDisposeOne(scn: Scene<Value>) returns (disposed: Result<Value, Error>)
    requires scn.Valid() && !scn.ended && scn.props == map[] && scn.log == []
    modifies scn
    ensures scn.Valid() && !scn.ended && disposed == Ok(Int(4711))
    ensures scn.props == map["bar" := Box("bar", Str("yadda"), Some(Succeed))] && scn.log == [Call("foo", Int(4711))]
  {
    var foo, bar := Box("foo", Int(4711), Some(Succeed)), Box("bar", Str("yadda"), Some(Succeed));
    var first, second := StoreTwo(scn);
    assert FailureOf(foo).None? && CallsOf(foo) == [Call("foo", Int(4711))];
    LeavesOther(foo, bar);
    disposed := scn.Dispose("foo");
  }

  /** Deleting the first of two keys leaves the table of the second alone. */
  lemma LeavesOther<V>(a: Box<V>, b: Box<V>)
    requires a.key != b.key
    ensures map[a.key := a, b.key := b] - {a.key} == map[b.key := b]
  {
    var one := map[a.key := a, b.key := b] - {a.key};
    assert one.Keys == {b.key};
  }

  /** The stores of TestCleanupNoError. */
  method StoreTwo(scn: Scene<Value>) returns (first: Option<Error>, second: Option<Error>)
    requires scn.Valid() && !scn.ended && scn.props == map[] && scn.log == []
    modifies scn
    ensures first.None? && second.None?
    ensures scn.Valid() && !scn.ended && scn.log == []
    ensures scn.props == map["foo" := Box("foo", Int(4711), Some(Succeed)), "bar" := Box("bar", Str("yadda"), Some(Succeed))]
  {
    first := scn.StoreClean("foo", Int(4711), Some(Succeed));
    second := scn.StoreClean("bar", Str("yadda"), Some(Succeed));
  }

  /**
   * TestCleanupWithErrors: three props whose cleanup always fails; each
   * dispose reports CleanupFailed without a value, and so does the stop.
   */
  method CleanupWithErrors() returns (foo: Result<Value, Error>, bar: Result<Value, Error>, stopped: Option<Error>)
    ensures foo == Err(CleanupFailed("foo", "ouch")) && bar == Err(CleanupFailed("bar", "ouch"))
    ensures stopped == Some(CleanupFailed("yadda", "ouch"))
  {
    var scn := new Scene<Value>();
    var first, second, third := StoreThree(scn);
    foo, bar := DisposeTwo(scn);
    stopped := StopLast(scn);
  }

  /** The end of TestCleanupWithErrors: the teardown of the one prop left fails. */
  method StopLast(scn: Scene<Value>) returns (stopped: Option<Error>)
    requires scn.Valid() && !scn.ended
    requires scn.props.Keys == {"yadda"} && scn.props["yadda"] == Box("yadda", Str("OK"), Some(Fail))
    modifies scn
    ensures stopped == Some(CleanupFailed("yadda", "ouch"))
  {
    TeardownSingle(scn.props, "yadda");
    stopped := scn.Stop(["yadda"]);
  }

  /** The props of TestCleanupWithErrors, each with the failing cleanup. */
  method StoreThree(scn: Scene<Value>) returns (first: Option<Error>, second: Option<Error>, third: Option<Error>)
    requires scn.Valid() && !scn.ended && scn.props == map[]
    modifies scn
    ensures first.None? && second.None? && third.None?
    ensures scn.Valid() && !scn.ended
    ensures scn.props == map["foo" := Box("foo", Int(4711), Some(Fail)), "bar" := Box("bar", Bool(true), Some(Fail)),
                             "yadda" := Box("yadda", Str("OK"), Some(Fail))]
  {
    first := scn.StoreClean("foo", Int(4711), Some(Fail));
    second := scn.StoreClean("bar", Bool(true), Some(Fail));
    third := scn.StoreClean("yadda", Str("OK"), Some(Fail));
  }

  /** The disposals of TestCleanupWithErrors: both fail, and only "yadda" is left. */
  method DisposeTwo(scn: Scene<Value>) returns (foo: Result<Value, Error>, bar: Result<Value, Error>)
    requires scn.Valid() && !scn.ended
    requires scn.props.Keys == {"foo", "bar", "yadda"} && scn.props["yadda"] == Box("yadda", Str("OK"), Some(Fail))
    requires scn.props["foo"] == Box("foo", Int(4711), Some(Fail)) && scn.props["bar"] == Box("bar", Bool(true), Some(Fail))
    modifies scn
    ensures scn.Valid() && !scn.ended
    ensures foo == Err(CleanupFailed("foo", "ouch")) && bar == Err(CleanupFailed("bar", "ouch"))
    ensures scn.props.Keys == {"yadda"} && scn.props["yadda"] == Box("yadda", Str("OK"), Some(Fail))
  {
    foo := DisposeFailing(scn, "foo");
    bar := DisposeFailing(scn, "bar");
  }

  /** One disposal of TestCleanupWithErrors: the prop goes, and its failing cleanup makes the result CleanupFailed. */
  method DisposeFailing(scn: Scene<Value>, key: string) returns (r: Result<Value, Error>)
    requires scn.Valid() && !scn.ended && key in scn.props && scn.props[key].key == key && scn.props[key].cleanup == Some(Fail)
    modifies scn
    ensures scn.Valid() && !scn.ended
    ensures r == Err(CleanupFailed(key, "ouch")) && scn.props == old(scn.props) - {key}
  {
    ghost var box := scn.props[key];
    assert FailureOf(box) == Some("ouch");
    r := scn.Dispose(key);
  }
}
