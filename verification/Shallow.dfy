/** `zkv shallow get`: when the backward walk may stop, against what is printed.

    The walk stops on a per-argument test that looks an exact argument up as a
    raw map key, while the printed rows come from glob matching every key. */
module Shallow {
  import opened Wrappers
  import opened Glob

  datatype Update = Update(value: Option<string>, height: nat)

  /** Some key of the window matches the argument. */
  predicate KeyFound(latest: map<string, Update>, arg: string) {
    exists k | k in latest :: Matches(arg, k)
  }

  /** The stop test for one argument. */
  predicate Resolved(latest: map<string, Update>, arg: string) {
    if IsPattern(arg) then KeyFound(latest, arg) else arg in latest
  }

  predicate StopWalking(latest: map<string, Update>, args: seq<string>) {
    forall i | 0 <= i < |args| :: Resolved(latest, args[i])
  }

  /** `matched_sorted`, as the part of the window it keeps. */
  function Matched(latest: map<string, Update>, args: seq<string>): map<string, Update> {
    map k | k in latest && (exists i | 0 <= i < |args| :: Matches(args[i], k)) :: latest[k]
  }

  ghost predicate Contributes(latest: map<string, Update>, args: seq<string>, arg: string) {
    exists k :: k in Matched(latest, args) && Matches(arg, k)
  }

  ghost predicate AllContribute(latest: map<string, Update>, args: seq<string>) {
    forall i | 0 <= i < |args| :: Contributes(latest, args, args[i])
  }

  /** An argument the two tests read alike: a pattern, or a key spelled without
      an effective escape. */
  predicate ReadAlike(arg: string) {
    IsPattern(arg) || Unescape(arg) == arg
  }

  /** A key no other reading of the arguments can produce: the longest argument
      that unescaping changes. */
  ghost predicate LongestEscaped(args: seq<string>, at: nat) {
    && at < |args| && !ReadAlike(args[at])
    && forall i | 0 <= i < |args| && !ReadAlike(args[i]) :: |args[i]| <= |args[at]|
  }

  lemma {:induction false} FindLongest(args: seq<string>, some: nat) returns (at: nat)
    requires some < |args| && !ReadAlike(args[some])
    ensures LongestEscaped(args, at)
    decreases |args|
  {
    var last := |args| - 1;
    var init := args[..last];
    if i: nat :| i < last && !ReadAlike(args[i]) {
      at := FindLongest(init, i);
      assert forall j | 0 <= j < last :: init[j] == args[j];
      if !ReadAlike(args[last]) && |args[last]| > |args[at]| { at := last; }
    } else {
      at := last;
    }
  }

  /** A key each argument matches, never `avoid`. */
  lemma KeyFor(arg: string, avoid: string) returns (k: string)
    requires ReadAlike(arg) ==> IsPattern(arg) || arg != avoid
    requires !ReadAlike(arg) ==> |arg| <= |avoid|
    ensures Matches(arg, k) && k != avoid
  {
    if IsPattern(arg) {
      k := WildcardAcceptsLong(arg, |avoid| + 1);
    } else {
      k := Unescape(arg);
      LiteralAcceptsOnlyItself(arg, k);
      UnescapeLength(arg, 0);
      assert arg[0..] == arg;
    }
  }

  /** A window every argument contributes to although one stop test fails. */
  lemma {:induction false} WindowWithout(args: seq<string>, avoid: string, n: nat)
      returns (latest: map<string, Update>)
    requires n <= |args|
    requires forall i | 0 <= i < |args| ::
               if ReadAlike(args[i]) then IsPattern(args[i]) || args[i] != avoid
               else |args[i]| <= |avoid|
    ensures avoid !in latest
    ensures forall i | 0 <= i < n :: KeyFound(latest, args[i])
  {
    latest := map[];
    if n > 0 {
      var rest := WindowWithout(args, avoid, n - 1);
      var k := KeyFor(args[n - 1], avoid);
      latest := rest[k := Update(None, 0)];
      forall i | 0 <= i < n ensures KeyFound(latest, args[i]) {
        if i == n - 1 {
          assert k in latest && Matches(args[i], k);
        } else {
          assert KeyFound(rest, args[i]);
          var other :| other in rest && Matches(args[i], other);
          assert other in latest;
        }
      }
    }
  }

  lemma ContributesIffKey(latest: map<string, Update>, args: seq<string>, i: nat)
    requires i < |args|
    ensures Contributes(latest, args, args[i]) <==> KeyFound(latest, args[i])
  {
    if k :| k in latest && Matches(args[i], k) {
      assert k in Matched(latest, args);
    }
  }

  /** One argument at a time: the stop test agrees with what will be printed. */
  lemma ResolvedIffContributes(latest: map<string, Update>, args: seq<string>, i: nat)
    requires i < |args| && ReadAlike(args[i])
    ensures Resolved(latest, args[i]) <==> Contributes(latest, args, args[i])
  {
    ContributesIffKey(latest, args, i);
    if !IsPattern(args[i]) {
      forall k ensures Matches(args[i], k) <==> k == args[i] {
        LiteralAcceptsOnlyItself(args[i], k);
      }
    }
  }

  /** The walk stops exactly when every argument has a row to print, on every
      window, if and only if no argument is a literal key with an effective
      escape. With one, `get 'a\*b'` walks to its depth limit over a window
      that already holds the key it prints. */
  lemma StopIffAllContribute(args: seq<string>)
    ensures (forall latest :: StopWalking(latest, args) <==> AllContribute(latest, args))
       <==> (forall i | 0 <= i < |args| :: ReadAlike(args[i]))
  {
    if i: nat :| i < |args| && !ReadAlike(args[i]) {
      var at := FindLongest(args, i);
      var latest := WindowWithout(args, args[at], |args|);
      forall j | 0 <= j < |args| ensures Contributes(latest, args, args[j]) {
        ContributesIffKey(latest, args, j);
      }
      assert !Resolved(latest, args[at]);
      assert AllContribute(latest, args) && !StopWalking(latest, args);
    } else {
      forall latest: map<string, Update>
        ensures StopWalking(latest, args) <==> AllContribute(latest, args)
      {
        forall j | 0 <= j < |args|
          ensures Resolved(latest, args[j]) <==> Contributes(latest, args, args[j])
        {
          ResolvedIffContributes(latest, args, j);
        }
      }
    }
  }

  /** In particular for arguments without a backslash. */
  lemma PlainArgumentsStopExactly(latest: map<string, Update>, args: seq<string>)
    requires forall i, j | 0 <= i < |args| && 0 <= j < |args[i]| :: args[i][j] != ESCAPE
    ensures StopWalking(latest, args) <==> AllContribute(latest, args)
  {
    forall i | 0 <= i < |args| ensures ReadAlike(args[i]) {
      PlainUnescape(args[i], 0);
      assert args[i][0..] == args[i];
    }
    StopIffAllContribute(args);
  }

  /** A literal argument is read alike exactly when it matches itself: `a\*b` does
      not, it stands for another key. */
  lemma ReadAlikeIffMatchesItself(arg: string)
    requires !IsPattern(arg)
    ensures ReadAlike(arg) <==> Matches(arg, arg)
  {
    LiteralAcceptsOnlyItself(arg, arg);
  }

  /** The rows: each key some argument matches, once, with its update from the window. */
  lemma RowsAreTheWindows(latest: map<string, Update>, args: seq<string>, k: string, u: Update)
    ensures (k in Matched(latest, args) && Matched(latest, args)[k] == u)
       <==> (k in latest && latest[k] == u && exists arg :: arg in args && Matches(arg, k))
  {
    if arg :| arg in args && Matches(arg, k) {
      var i :| 0 <= i < |args| && args[i] == arg;
      assert Matches(args[i], k);
    }
  }

  /** `get` with a literal key as it is typed, escapes included: the walk stops once the
      window holds the typed text, and prints the update of the key it stands for. */
  lemma OneLiteral(latest: map<string, Update>, key: string)
    ensures StopWalking(latest, [Escaped(key)]) <==> Escaped(key) in latest
    ensures Matched(latest, [Escaped(key)]) == if key in latest then map[key := latest[key]] else map[]
  {
    var args := [Escaped(key)];
    EscapedMatchesItself(key, key);
    assert StopWalking(latest, args) <==> Resolved(latest, args[0]);
    forall k ensures Matches(Escaped(key), k) <==> k == key { EscapedMatchesItself(key, k); }
    assert key in latest ==> Matches(args[0], key);
  }
}
