/** The meaning of the signal store: the state of every signal at every time, read off the
    changes alone. This is the simple specification the point representation refines. */
module SignalTimeline {
  import opened Base
  import opened IntSets
  import opened SignalPoint

  /** Changes by time, as the `signal_change` table holds them. */
  type ChangeMap = map<int, SigMap>

  /** The change of signal s at time t, if any. */
  ghost function ChangeAt(c: ChangeMap, t: int, s: SignalId): Option<StateNo> {
    if t in c && s in c[t] then Some(c[t][s]) else None
  }

  /** The state of s just before t: that of the latest earlier change, or 0 (unknown). */
  ghost function Before(c: ChangeMap, t: int, s: SignalId): StateNo
    decreases set u | u in c && u < t
  {
    var earlier := set u | u in c && u < t;
    if earlier == {} then 0
    else
      var m := MaxOf(earlier);
      assert m !in (set u | u in c && u < m);
      if s in c[m] then c[m][s] else Before(c, m, s)
  }

  ghost function Applied(before: StateNo, change: Option<StateNo>): StateNo {
    if change.Some? then change.value else before
  }

  lemma BeforeStep(c: ChangeMap, t: int, s: SignalId)
    ensures Before(c, t + 1, s) == Applied(Before(c, t, s), ChangeAt(c, t, s))
  {
    var earlier := set u | u in c && u < t + 1;
    if t in c {
      assert t in earlier;
      assert MaxOf(earlier) == t;
    } else {
      assert earlier == set u | u in c && u < t;
    }
  }

  lemma BeforeLow(c: ChangeMap, t: int, s: SignalId)
    requires forall u | u in c :: t <= u
    ensures Before(c, t, s) == 0
  {
  }

  lemma {:induction false} BeforeConstant(c: ChangeMap, a: int, b: int, s: SignalId)
    requires a <= b && forall u | a <= u < b :: ChangeAt(c, u, s) == None
    ensures Before(c, a, s) == Before(c, b, s)
    decreases b - a
  {
    if a < b {
      BeforeConstant(c, a, b - 1, s);
      BeforeStep(c, b - 1, s);
    }
  }

  /** A bound below every time of both maps. */
  lemma LowerBound(a: set<int>, b: set<int>, t: int) returns (lo: int)
    ensures lo <= t && (forall u | u in a :: lo <= u) && forall u | u in b :: lo <= u
  {
    lo := MinOf(a + b + {t});
    assert t in a + b + {t};
    forall u | u in a + b ensures lo <= u {
      assert u in a + b + {t};
    }
  }

  /** An interval update of the state function: inside `[start, end)` the given signals take the
      given states; every other signal and time keeps its state. This is the state before t. */
  ghost function Desired(c: ChangeMap, start: int, end: int, upd: SigMap, t: int, s: SignalId): StateNo {
    if start < t <= end && s in upd then upd[s] else Before(c, t, s)
  }

  ghost predicate PatchStep(c: ChangeMap, c2: ChangeMap, start: int, end: int, upd: SigMap, t: int, s: SignalId) {
    Desired(c, start, end, upd, t + 1, s) == Applied(Desired(c, start, end, upd, t, s), ChangeAt(c2, t, s))
  }

  /** If the new changes step the desired function at every time, they denote it. */
  lemma {:induction false} PatchDenotes(c: ChangeMap, c2: ChangeMap, start: int, end: int, upd: SigMap, t: int, s: SignalId)
    requires forall u :: PatchStep(c, c2, start, end, upd, u, s)
    ensures Before(c2, t, s) == Desired(c, start, end, upd, t, s)
  {
    var lo := LowerBound(c.Keys, c2.Keys, Min(t, start));
    BeforeLow(c, lo, s);
    BeforeLow(c2, lo, s);
    PatchFrom(c, c2, start, end, upd, lo, t, s);
  }

  lemma {:induction false} PatchFrom(c: ChangeMap, c2: ChangeMap, start: int, end: int, upd: SigMap, lo: int, t: int, s: SignalId)
    requires forall u :: PatchStep(c, c2, start, end, upd, u, s)
    requires lo <= t && Before(c2, lo, s) == Desired(c, start, end, upd, lo, s)
    ensures Before(c2, t, s) == Desired(c, start, end, upd, t, s)
    decreases t - lo
  {
    if lo < t {
      PatchFrom(c, c2, start, end, upd, lo, t - 1, s);
      BeforeStep(c2, t - 1, s);
      assert PatchStep(c, c2, start, end, upd, t - 1, s);
    }
  }

  /** Two change maps that agree before t denote the same state just before t. */
  lemma {:induction false} BeforeAgree(c: ChangeMap, c2: ChangeMap, t: int, s: SignalId)
    requires forall u | u < t :: ChangeAt(c, u, s) == ChangeAt(c2, u, s)
    ensures Before(c, t, s) == Before(c2, t, s)
  {
    var lo := LowerBound(c.Keys, c2.Keys, t);
    BeforeLow(c, lo, s);
    BeforeLow(c2, lo, s);
    AgreeFrom(c, c2, lo, t, s);
  }

  lemma {:induction false} AgreeFrom(c: ChangeMap, c2: ChangeMap, lo: int, t: int, s: SignalId)
    requires lo <= t && Before(c, lo, s) == Before(c2, lo, s)
    requires forall u | lo <= u < t :: ChangeAt(c, u, s) == ChangeAt(c2, u, s)
    ensures Before(c, t, s) == Before(c2, t, s)
    decreases t - lo
  {
    if lo < t {
      AgreeFrom(c, c2, lo, t - 1, s);
      BeforeStep(c, t - 1, s);
      BeforeStep(c2, t - 1, s);
    }
  }

  ghost predicate StrictlyIncreasing(signals: seq<SignalId>) {
    forall i, j | 0 <= i < j < |signals| :: signals[i] < signals[j]
  }

  /** The states an update gives to its signals. */
  ghost function Zip(signals: seq<SignalId>, states: seq<StateNo>): (m: SigMap)
    requires |signals| == |states|
    ensures forall s :: s in m <==> s in signals
  {
    if signals == [] then map[]
    else
      var n := |signals| - 1;
      assert signals == signals[..n] + [signals[n]];
      Zip(signals[..n], states[..n])[signals[n] := states[n]]
  }

  lemma {:induction false} ZipAt(signals: seq<SignalId>, states: seq<StateNo>, i: nat)
    requires |signals| == |states| && StrictlyIncreasing(signals) && i < |signals|
    ensures Zip(signals, states)[signals[i]] == states[i]
  {
    var n := |signals| - 1;
    if i < n {
      ZipAt(signals[..n], states[..n], i);
    }
  }

  lemma ZipNext(signals: seq<SignalId>, states: seq<StateNo>, i: nat)
    requires |signals| == |states| && StrictlyIncreasing(signals) && i < |signals|
    ensures Zip(signals[..i + 1], states[..i + 1]) == Zip(signals[..i], states[..i])[signals[i] := states[i]]
    ensures signals[i] !in signals[..i]
  {
    assert signals[..i + 1][..i] == signals[..i] && states[..i + 1][..i] == states[..i];
  }

  /** At the far future every signal is unknown. */
  ghost predicate EndsUnknown(c: ChangeMap) {
    forall t, s | (forall u | u in c :: u < t) :: Before(c, t, s) == 0
  }
}
