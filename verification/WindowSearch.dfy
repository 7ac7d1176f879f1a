/** The longest-window search, and the search for a calibration phase built on it. */
module WindowSearch {
  import opened CTypes

  /** The n entries from s on are all zero. */
  predicate Window(field: seq<u8>, s: int, n: int) {
    && 0 <= s && 0 <= n && s + n <= |field|
    && forall k :: s <= k < s + n ==> field[k] == 0
  }

  /** The longest window, and the first of that length; 0 and 0 when nothing is zero. */
  ghost predicate Longest(field: seq<u8>, start: int, cnt: int) {
    && Window(field, start, cnt) && (cnt == 0 ==> start == 0)
    && (forall s, n :: Window(field, s, n) ==> n <= cnt)
    && (cnt > 0 ==> forall s :: Window(field, s, cnt) ==> start <= s)
  }

  /** What the search knows of the entries before i. */
  ghost predicate Searched(field: seq<u8>, i: int, start: int, cnt: int, maxStart: int, maxCnt: int) {
    && 0 <= i <= |field| && 0 <= cnt && 0 <= maxCnt
    // the run that ends at i, and that cannot be extended to the left
    && Window(field, i - cnt, cnt) && (start == if cnt == 0 then -1 else i - cnt)
    && (cnt < i ==> field[i - cnt - 1] != 0)
    // the best run that is over
    && Window(field, maxStart, maxCnt) && maxStart + maxCnt <= i && (maxCnt == 0 ==> maxStart == 0)
    && (forall s, n :: Window(field, s, n) && s + n < i - cnt ==> n <= maxCnt)
    && (maxCnt > 0 ==> forall s :: Window(field, s, maxCnt) && s + maxCnt < i - cnt ==> maxStart <= s)
    && (maxCnt > 0 ==> maxStart + maxCnt < i - cnt)
  }

  /** ad9361_find_opt */
  method FindOpt(field: array<u8>, size: nat) returns (maxCnt: nat, retStart: nat)
    requires size <= field.Length
    ensures Longest(field[..size], retStart, maxCnt)
  {
    var cnt, start, maxStart := 0, -1, 0;
    maxCnt := 0;
    ghost var f := field[..size];
    var i := 0;
    while i < size
      invariant Searched(f, i, start, cnt, maxStart, maxCnt)
    {
      Advance(f, i, start, cnt, maxStart, maxCnt);
      if field[i] == 0 {
        if start == -1 {
          start := i;
        }
        cnt := cnt + 1;
      } else {
        if cnt > maxCnt {
          maxCnt, maxStart := cnt, start;
        }
        start, cnt := -1, 0;
      }
      i := i + 1;
    }
    Finish(f, start, cnt, maxStart, maxCnt);
    if cnt > maxCnt {
      maxCnt, maxStart := cnt, start;
    }
    retStart := maxStart;
  }

  lemma Advance(f: seq<u8>, i: nat, start: int, cnt: nat, maxStart: int, maxCnt: nat)
    requires i < |f| && Searched(f, i, start, cnt, maxStart, maxCnt)
    ensures f[i] == 0 ==> Searched(f, i + 1, if start == -1 then i else start, cnt + 1, maxStart, maxCnt)
    ensures f[i] != 0 ==>
              Searched(f, i + 1, -1, 0, if cnt > maxCnt then start else maxStart, if cnt > maxCnt then cnt else maxCnt)
  {
    if f[i] != 0 {
      forall s, n | Window(f, s, n) && s + n < i + 1 && !(s + n < i - cnt)
        ensures n <= cnt && (n == cnt && cnt > 0 ==> s == i - cnt)
      {
        EndsInRun(f, i, cnt, s, n);
      }
    }
  }

  /** A window that ends inside the current run lies in it. */
  lemma EndsInRun(f: seq<u8>, i: nat, cnt: nat, s: int, n: int)
    requires cnt <= i <= |f| && (cnt < i ==> f[i - cnt - 1] != 0)
    requires Window(f, s, n) && i - cnt <= s + n <= i
    ensures n <= cnt && (n == cnt && cnt > 0 ==> s == i - cnt)
  {
  }

  lemma Finish(f: seq<u8>, start: int, cnt: nat, maxStart: int, maxCnt: nat)
    requires Searched(f, |f|, start, cnt, maxStart, maxCnt)
    ensures Longest(f, if cnt > maxCnt then start else maxStart, if cnt > maxCnt then cnt else maxCnt)
  {
    forall s, n | Window(f, s, n) && !(s + n < |f| - cnt)
      ensures n <= cnt && (n == cnt && cnt > 0 ==> s == |f| - cnt)
    {
      EndsInRun(f, |f|, cnt, s, n);
    }
  }

  // ---- the calibration phase ----

  const PHASES := 32
  const TX1_SSB_CONV: bv8 := 0x01
  const TX1_LO_CONV: bv8 := 0x02

  predicate Converged(val: bv8) { val & TX1_LO_CONV != 0 && val & TX1_SSB_CONV != 0 }

  /** Phases are angles: they wrap around. */
  function Turned(p: int): (q: nat)
    ensures q < PHASES && (0 <= p < PHASES ==> q == p)
  {
    p % PHASES
  }

  predicate GoodAt(vals: seq<bv8>, x: int)
    requires |vals| == PHASES
  {
    Converged(vals[Turned(x)])
  }

  /** All phases up to r steps away from p, on both sides, converge. */
  predicate Margin(vals: seq<bv8>, p: int, r: int)
    requires |vals| == PHASES
  {
    forall x :: p - r <= x <= p + r ==> GoodAt(vals, x)
  }

  /** The doubled field handles the wrap-around: entry k stands for phase k mod 32. */
  predicate Doubled(field: seq<u8>, vals: seq<bv8>)
    requires |vals| == PHASES
  {
    |field| == 2 * PHASES && forall k :: 0 <= k < 2 * PHASES ==> (field[k] == 0 <==> GoodAt(vals, k))
  }

  /** The phase in the middle of the longest window has the largest margin of all
      phases to the nearest one that fails. */
  lemma MiddleHasLargestMargin(field: seq<u8>, vals: seq<bv8>, start: nat, cnt: nat, q: nat, r: int)
    requires |vals| == PHASES && 0 <= r && Doubled(field, vals) && Longest(field, start, cnt)
    requires Margin(vals, q, r)
    ensures Margin(vals, Turned(start + cnt / 2), r)
  {
    hide Converged;
    var middle := start + cnt / 2;
    var p := Turned(middle);
    if f :| 0 <= f < PHASES && !GoodAt(vals, f) {
      MarginBelowHalf(vals, q, r, f);
      var s := Turned(q - r);
      forall k | s <= k < s + 2 * r + 1 ensures field[k] == 0 {
        SameAngle(vals, k, q - r, s);
      }
      assert Window(field, s, 2 * r + 1);
      forall x | p - r <= x <= p + r ensures GoodAt(vals, x) {
        SameAngle(vals, x, middle, p);
        assert field[x - p + middle] == 0;
      }
    } else {
      forall x | p - r <= x <= p + r ensures GoodAt(vals, x) {
        SameAngle(vals, Turned(x), x, Turned(x));
      }
    }
  }

  /** Moving by whole turns changes nothing. */
  lemma SameAngle(vals: seq<bv8>, x: int, from: int, to: int)
    requires |vals| == PHASES && to == Turned(from)
    ensures GoodAt(vals, x) <==> GoodAt(vals, x - to + from)
  {
    assert (x - to + from) % PHASES == x % PHASES;
  }

  lemma MarginBelowHalf(vals: seq<bv8>, q: int, r: int, f: nat)
    requires |vals| == PHASES && 0 <= r && Margin(vals, q, r) && f < PHASES && !GoodAt(vals, f)
    ensures 2 * r + 1 < PHASES
  {
    var m := (f - q + 16) / PHASES;
    WholeTurns(f, -m);
    assert q - 16 <= f - m * PHASES <= q + 15;
    assert !GoodAt(vals, f - m * PHASES);
  }

  lemma WholeTurns(f: nat, m: int)
    requires f < PHASES
    ensures Turned(f + m * PHASES) == f
  {
  }

  datatype Calibration = Done(status: bv8) | Failed

  predicate AllDone(cals: seq<Calibration>) { forall i :: 0 <= i < |cals| ==> cals[i].Done? }

  function Statuses(cals: seq<Calibration>): (vals: seq<bv8>)
    requires AllDone(cals)
    ensures |vals| == |cals|
  {
    seq(|cals|, i requires 0 <= i < |cals| => cals[i].status)
  }

  /** The field the search fills is the doubled one. */
  lemma FieldIsDoubled(field: seq<u8>, cals: seq<Calibration>)
    requires |field| == 2 * PHASES && |cals| == PHASES && AllDone(cals)
    requires forall k :: 0 <= k < PHASES ==> (field[k] == 0 <==> Converged(cals[k].status))
    requires forall k :: PHASES <= k < 2 * PHASES ==> field[k] == field[k - PHASES]
    ensures Doubled(field, Statuses(cals))
  {
    forall k | 0 <= k < 2 * PHASES ensures field[k] == 0 <==> GoodAt(Statuses(cals), k) {
      assert Turned(k) == if k < PHASES then k else k - PHASES;
    }
  }

  class QuadCal {
    var lastPhase: nat
    var runs: seq<nat>

    constructor ()
      ensures lastPhase == 0 && runs == []
    {
      lastPhase, runs := 0, [];
    }

    /** ad9361_tx_quad_phase_search, given the outcome of each calibration run
        and of the one that ends the search. */
    method PhaseSearch(cals: seq<Calibration>, last: Calibration) returns (ok: bool)
      requires |cals| == PHASES
      modifies this
      ensures AllDone(cals) ==>
                && ok == last.Done? && lastPhase < PHASES
                && runs == old(runs) + seq(PHASES, i => i) + [lastPhase]
                && forall q, r :: 0 <= q < PHASES && 0 <= r && Margin(Statuses(cals), q, r)
                                  ==> Margin(Statuses(cals), lastPhase, r)
      ensures !AllDone(cals) ==> !ok && lastPhase == old(lastPhase)
    {
      var field := new u8[64];
      var i := 0;
      while i < PHASES
        invariant 0 <= i <= PHASES && lastPhase == old(lastPhase) && runs == old(runs) + seq(i, k => k)
        invariant forall k :: 0 <= k < i ==> cals[k].Done?
        invariant forall k :: 0 <= k < i ==> (field[k] == 0 <==> Converged(cals[k].status))
        invariant forall k :: 32 <= k < 32 + i ==> field[k] == field[k - 32]
      {
        runs := runs + [i];
        if cals[i].Failed? {
          return false;
        }
        var failed := if Converged(cals[i].status) then 0 else 1;
        field[i], field[i + 32] := failed, failed;
        i := i + 1;
      }
      var cnt, start := FindOpt(field, 64);
      lastPhase := Turned(start + cnt / 2);
      runs := runs + [lastPhase];
      ok := last.Done?;
      FieldIsDoubled(field[..], cals);
      assert field[..64] == field[..];
      forall q, r | 0 <= q < PHASES && 0 <= r && Margin(Statuses(cals), q, r)
        ensures Margin(Statuses(cals), lastPhase, r)
      {
        MiddleHasLargestMargin(field[..], Statuses(cals), start, cnt, q, r);
      }
    }
  }
}
