/**
 * The derangement generator inside `realizarSorteo` (src/pages/Sorteo.tsx):
 * copy the participant list, then repeat an in-place Fisher-Yates shuffle of
 * the copy and a scan for fixed points until no participant sits at its own
 * position; finally zip the original list with the shuffled one into
 * `participante_id -> amigo_asignado_id` rows.
 *
 * The random source is an oracle `pick(t, i)`: the index that the `t`-th call
 * of `Math.floor(Math.random() * (i + 1))` yields, so `0 <= pick(t, i) <= i`.
 * The retry loop has no bound in the source; here it runs for at most `fuel`
 * passes, and running out of fuel is reported as `None`.
 */
module Derangement {
  import opened Wrappers
  import opened Tables

  /** Every draw of the oracle is a valid Fisher-Yates index for its bound. */
  ghost predicate ValidOracle(pick: (nat, nat) -> nat) {
    forall t: nat, i: nat :: pick(t, i) <= i
  }

  /** `[shuffled[i], shuffled[j]] = [shuffled[j], shuffled[i]]`. */
  function Swap<T>(s: seq<T>, i: nat, j: nat): (r: seq<T>)
    requires j <= i < |s|
    ensures |r| == |s| && r[i] == s[j] && r[j] == s[i]
    ensures forall k :: 0 <= k < |s| && k != i && k != j ==> r[k] == s[k]
  {
    s[i := s[j]][j := s[i]]
  }

  lemma SwapPermutes<T>(s: seq<T>, i: nat, j: nat)
    requires j <= i < |s|
    ensures multiset(Swap(s, i, j)) == multiset(s)
  {
  }

  /** The Fisher-Yates loop from index `i` down to 1, drawing oracle values `t, t + 1, ...`.
      Every step is a swap, so the result is a permutation of `s`. */
  function ShufflePass<T>(s: seq<T>, pick: (nat, nat) -> nat, t: nat, i: int): (r: seq<T>)
    requires ValidOracle(pick) && i < |s|
    ensures |r| == |s|
    decreases i
  {
    if i <= 0 then s else ShufflePass(Swap(s, i, pick(t, i)), pick, t + 1, i - 1)
  }

  /** Each pass of the Fisher-Yates loop only swaps, so it rearranges `s`. */
  lemma {:induction false} ShufflePassPermutes<T>(s: seq<T>, pick: (nat, nat) -> nat, t: nat, i: int)
    requires ValidOracle(pick) && i < |s|
    ensures multiset(ShufflePass(s, pick, t, i)) == multiset(s)
    decreases i
  {
    if i > 0 {
      SwapPermutes(s, i, pick(t, i));
      ShufflePassPermutes(Swap(s, i, pick(t, i)), pick, t + 1, i - 1);
    }
  }

  /** One full shuffle of `s`: `for (let i = s.length - 1; i > 0; i--)`. */
  function Shuffled<T>(s: seq<T>, pick: (nat, nat) -> nat, t: nat): (r: seq<T>)
    requires ValidOracle(pick)
    ensures |r| == |s|
  {
    ShufflePass(s, pick, t, |s| - 1)
  }

  /** How many oracle values one shuffle of `n` elements consumes. */
  function DrawsPerPass(n: nat): nat {
    if n == 0 then 0 else n - 1
  }

  /** No participant is at its own position (ids compared, as the scan does). */
  predicate NoFixedPoint(ps: seq<Participante>, d: seq<Participante>) {
    |d| == |ps| && forall i :: 0 <= i < |ps| ==> ps[i].id != d[i].id
  }

  /** `d` is a rearrangement of `ps` with no participant at its own position. */
  predicate IsDerangement(ps: seq<Participante>, d: seq<Participante>) {
    NoFixedPoint(ps, d) && multiset(d) == multiset(ps)
  }

  /** The retry loop: shuffle the CURRENT arrangement `s` (not the original list),
      stop when the scan finds no fixed point, give up after `fuel` passes. */
  function Retry(ps: seq<Participante>, s: seq<Participante>, pick: (nat, nat) -> nat, t: nat, fuel: nat): (r: Option<seq<Participante>>)
    requires ValidOracle(pick) && |s| == |ps|
    decreases fuel
  {
    if fuel == 0 then None
    else
      var next := Shuffled(s, pick, t);
      if NoFixedPoint(ps, next) then Some(next)
      else Retry(ps, next, pick, t + DrawsPerPass(|s|), fuel - 1)
  }

  /** One pass of the loop: shuffle, then stop or go on with the shuffled list and the next draws. */
  lemma RetryStep(ps: seq<Participante>, s: seq<Participante>, next: seq<Participante>, pick: (nat, nat) -> nat, t: nat, t1: nat, fuel: nat)
    requires ValidOracle(pick) && |s| == |ps| && fuel > 0 && next == Shuffled(s, pick, t) && t1 == t + DrawsPerPass(|s|)
    ensures Retry(ps, s, pick, t, fuel) ==
      if NoFixedPoint(ps, next) then Some(next) else Retry(ps, next, pick, t1, fuel - 1)
  {
  }

  /** Whatever the loop returns is a derangement of the participant list. */
  lemma {:induction false} RetryIsDerangement(ps: seq<Participante>, s: seq<Participante>, pick: (nat, nat) -> nat, t: nat, fuel: nat)
    requires ValidOracle(pick) && |s| == |ps| && multiset(s) == multiset(ps)
    ensures Retry(ps, s, pick, t, fuel).Some? ==> IsDerangement(ps, Retry(ps, s, pick, t, fuel).value)
    decreases fuel
  {
    if fuel > 0 {
      var next := Shuffled(s, pick, t);
      ShufflePassPermutes(s, pick, t, |s| - 1);
      if !NoFixedPoint(ps, next) {
        RetryIsDerangement(ps, next, pick, t + DrawsPerPass(|s|), fuel - 1);
      }
    }
  }

  /** The outcome of the whole retry loop started on the participant list itself, as
      `realizarSorteo` starts it: nothing (still looking) or a derangement. */
  function DrawOutcome(ps: seq<Participante>, pick: (nat, nat) -> nat, fuel: nat): (r: Option<seq<Participante>>)
    requires ValidOracle(pick)
    ensures r.Some? ==> IsDerangement(ps, r.value)
  {
    RetryIsDerangement(ps, ps, pick, 0, fuel);
    Retry(ps, ps, pick, 0, fuel)
  }

  /** Fuel is only a cut-off: once the loop has found a derangement, more fuel finds the same one. */
  lemma {:induction false} RetryMoreFuel(ps: seq<Participante>, s: seq<Participante>, pick: (nat, nat) -> nat, t: nat, fuel: nat, more: nat)
    requires ValidOracle(pick) && |s| == |ps| && fuel <= more
    ensures Retry(ps, s, pick, t, fuel).Some? ==> Retry(ps, s, pick, t, more) == Retry(ps, s, pick, t, fuel)
    decreases fuel
  {
    if fuel > 0 {
      var next := Shuffled(s, pick, t);
      if !NoFixedPoint(ps, next) {
        RetryMoreFuel(ps, next, pick, t + DrawsPerPass(|s|), fuel - 1, more - 1);
      }
    }
  }

  /** With an oracle that always answers 0, the first `i` steps rotate the prefix `s[..i + 1]` left by one. */
  lemma {:induction false} ZeroOracleRotates<T>(s: seq<T>, pick: (nat, nat) -> nat, t: nat, i: int)
    requires forall t': nat, i': nat :: pick(t', i') == 0
    requires 0 <= i < |s|
    ensures ValidOracle(pick)
    ensures ShufflePass(s, pick, t, i) == s[1..i + 1] + [s[0]] + s[i + 1..]
    decreases i
  {
    if i > 0 {
      var u := Swap(s, i, 0);
      ZeroOracleRotates(u, pick, t + 1, i - 1);
      assert u[1..i] == s[1..i];
      assert u[i..] == [s[0]] + s[i + 1..];
      assert s[1..i + 1] == s[1..i] + [s[i]];
    } else {
      assert s == [s[0]] + s[1..];
    }
  }

  /** The loop can always stop: with distinct ids and at least two participants there is an
      oracle (always 0) under which the very first shuffle is a derangement, the rotation by one. */
  lemma ZeroOracleSucceedsAtOnce(ps: seq<Participante>, pick: (nat, nat) -> nat, fuel: nat)
    requires forall t: nat, i: nat :: pick(t, i) == 0
    requires Distinct(Ids(ps)) && |ps| >= 2 && fuel >= 1
    ensures ValidOracle(pick)
    ensures Retry(ps, ps, pick, 0, fuel) == Some(ps[1..] + [ps[0]])
  {
    ZeroOracleRotates(ps, pick, 0, |ps| - 1);
    var d := ps[1..] + [ps[0]];
    assert Shuffled(ps, pick, 0) == d;
    forall i | 0 <= i < |ps| ensures ps[i].id != d[i].id {
      if i < |ps| - 1 {
        assert d[i] == ps[i + 1] && Ids(ps)[i] != Ids(ps)[i + 1];
      } else {
        assert d[i] == ps[0] && Ids(ps)[0] != Ids(ps)[i];
      }
    }
  }

  // ---------------------------------------------------------------- the loops

  /** The Fisher-Yates `for` loop, in place on `a`; returns the next unused oracle draw. */
  method Shuffle(a: array<Participante>, pick: (nat, nat) -> nat, t0: nat) returns (t: nat)
    requires ValidOracle(pick)
    modifies a
    ensures a[..] == Shuffled(old(a[..]), pick, t0)
    ensures t == t0 + DrawsPerPass(a.Length)
  {
    t := t0;
    var i := a.Length - 1;
    while i > 0
      invariant -1 <= i < a.Length
      invariant i == -1 ==> a.Length == 0
      invariant t == t0 + (a.Length - 1 - i)
      invariant ShufflePass(a[..], pick, t, i) == Shuffled(old(a[..]), pick, t0)
      decreases i
    {
      var j := pick(t, i);
      ghost var before := a[..];
      a[i], a[j] := a[j], a[i];
      assert a[..] == Swap(before, i, j);
      t := t + 1;
      i := i - 1;
    }
  }

  /** The fixed-point scan: `isValid` is false exactly when some participant drew itself. */
  method IsValidDraw(ps: seq<Participante>, shuffled: array<Participante>) returns (isValid: bool)
    requires shuffled.Length == |ps|
    ensures isValid <==> NoFixedPoint(ps, shuffled[..])
  {
    isValid := true;
    var i := 0;
    while i < |ps|
      invariant 0 <= i <= |ps|
      invariant forall k :: 0 <= k < i ==> ps[k].id != shuffled[k].id
    {
      if ps[i].id == shuffled[i].id {
        isValid := false;
        break;
      }
      i := i + 1;
    }
  }

  /** `let shuffled = [...participantes]; while (!isValid) { shuffle; scan }`, for at most
      `fuel` passes. The result is the loop's outcome and, when found, a derangement. */
  method DrawDerangement(ps: seq<Participante>, pick: (nat, nat) -> nat, fuel: nat) returns (r: Option<seq<Participante>>)
    requires ValidOracle(pick)
    ensures r == Retry(ps, ps, pick, 0, fuel)
    ensures r.Some? ==> IsDerangement(ps, r.value)
  {
    var shuffled := new Participante[|ps|](i requires 0 <= i < |ps| => ps[i]);
    assert shuffled[..] == ps;
    ghost var outcome := Retry(ps, ps, pick, 0, fuel);
    var isValid := false;
    var attempts := 0;
    var t := 0;
    while !isValid && attempts < fuel
      invariant 0 <= attempts <= fuel
      invariant shuffled.Length == |ps|
      invariant isValid ==> outcome == Some(shuffled[..])
      invariant !isValid ==> outcome == Retry(ps, shuffled[..], pick, t, fuel - attempts)
      decreases fuel - attempts, if isValid then 0 else 1
    {
      ghost var current := shuffled[..];
      ghost var t0 := t;
      ghost var remaining := fuel - attempts;
      t := Shuffle(shuffled, pick, t);
      isValid := IsValidDraw(ps, shuffled);
      attempts := attempts + 1;
      RetryStep(ps, current, shuffled[..], pick, t0, t, remaining);
    }
    RetryIsDerangement(ps, ps, pick, 0, fuel);
    r := if isValid then Some(shuffled[..]) else None;
  }

  // ---------------------------------------------------------------- rows

  /** `participantes.map((p, i) => ({ participante_id: p.id, amigo_asignado_id: shuffled[i].id }))`:
      one row per participant, in list order, keyed by the participant and targeting the
      participant at the same position of the shuffled list. */
  function BuildRows(ps: seq<Participante>, shuffled: seq<Participante>): (rows: seq<AsignacionRow>)
    requires |shuffled| == |ps|
    ensures |rows| == |ps|
    ensures RowKeys(rows) == Ids(ps)
    ensures RowTargets(rows) == Ids(shuffled)
  {
    seq(|ps|, i requires 0 <= i < |ps| => AsignacionRow(ps[i].id, shuffled[i].id))
  }

  /** Taking element `k` out of a list takes one copy of it out of the list's multiset. */
  lemma RemoveAt<T>(b: seq<T>, k: nat)
    requires k < |b|
    ensures multiset(b) == multiset(b[..k] + b[k + 1..]) + multiset{b[k]}
  {
    assert b == b[..k] + [b[k]] + b[k + 1..];
  }

  lemma IdsRemoveAt(b: seq<Participante>, k: nat)
    requires k < |b|
    ensures Ids(b[..k] + b[k + 1..]) == Ids(b)[..k] + Ids(b)[k + 1..]
  {
  }

  /** Matching the first element of `a` with element `k` of its rearrangement `b` leaves
      rearrangements of each other. */
  lemma PermutationTail<T>(a: seq<T>, b: seq<T>, k: nat)
    requires a != [] && k < |b| && b[k] == a[0] && multiset(a) == multiset(b)
    ensures multiset(a[1..]) == multiset(b[..k] + b[k + 1..])
  {
    RemoveAt(b, k);
    assert a == [a[0]] + a[1..];
    assert multiset(a[1..]) == multiset(a) - multiset{a[0]};
  }

  /** Rearranging the participants rearranges their ids. */
  lemma {:induction false} IdsOfPermutation(a: seq<Participante>, b: seq<Participante>)
    requires multiset(a) == multiset(b)
    ensures multiset(Ids(a)) == multiset(Ids(b))
    decreases |a|
  {
    if a == [] {
      assert |b| == |multiset(b)| == 0;
    } else {
      assert a[0] in multiset(b);
      var k :| 0 <= k < |b| && b[k] == a[0];
      PermutationTail(a, b, k);
      IdsOfPermutation(a[1..], b[..k] + b[k + 1..]);
      IdsRemoveAt(b, k);
      RemoveAt(Ids(b), k);
      assert multiset(Ids(a)) == multiset{a[0].id} + multiset(Ids(a[1..])) by {
        assert Ids(a) == [a[0].id] + Ids(a[1..]);
      }
    }
  }

  lemma {:induction false} DistinctAtMostOnce<T>(s: seq<T>, x: T)
    requires Distinct(s)
    ensures multiset(s)[x] <= 1
  {
    if s != [] {
      assert s == [s[0]] + s[1..];
      assert Distinct(s[1..]) by {
        forall i, j | 0 <= i < j < |s| - 1 ensures s[1..][i] != s[1..][j] {
          assert s[i + 1] != s[j + 1];
        }
      }
      DistinctAtMostOnce(s[1..], x);
      assert s[0] !in s[1..] by {
        forall j | 0 <= j < |s| - 1 ensures s[1..][j] != s[0] {
          assert s[j + 1] != s[0];
        }
      }
    }
  }

  lemma TwiceCounted<T>(s: seq<T>, i: nat, j: nat)
    requires i < j < |s|
    ensures s[i] == s[j] ==> multiset(s)[s[i]] >= 2
  {
    assert s == s[..j] + s[j..];
    assert s[i] == s[..j][i];
    assert s[j] == s[j..][0];
  }

  /** A rearrangement of a list without repetitions has no repetitions. */
  lemma DistinctPermutation<T>(a: seq<T>, b: seq<T>)
    requires Distinct(a) && multiset(a) == multiset(b)
    ensures Distinct(b)
  {
    forall i, j | 0 <= i < j < |b| ensures b[i] != b[j] {
      DistinctAtMostOnce(a, b[i]);
      TwiceCounted(b, i, j);
    }
  }

  /** The rows of a drawn derangement form a gift mapping without self-gifts in which every
      participant is the target of exactly one row (both the key column and the target
      column hold each participant id once). */
  lemma RowsAreDerangement(ps: seq<Participante>, d: seq<Participante>)
    requires Distinct(Ids(ps)) && IsDerangement(ps, d)
    ensures var rows := BuildRows(ps, d);
      && (forall i :: 0 <= i < |rows| ==> rows[i].participanteId != rows[i].amigoAsignadoId)
      && Distinct(RowKeys(rows))
      && Distinct(RowTargets(rows))
      && multiset(RowTargets(rows)) == multiset(RowKeys(rows))
  {
    IdsOfPermutation(d, ps);
    DistinctPermutation(Ids(ps), Ids(d));
  }
}
