/** Normalising symbol frequencies for the range coder: the frequencies are scaled
    to a given total without any symbol that occurs losing its share. */
module FrequencyNormalisation {
  import opened Geometry

  const SYMBOLS: nat := 256
  const UINT32_MAX: nat := 0xFFFF_FFFF

  type Byte = b: nat | b < SYMBOLS

  function Occurrences(input: seq<Byte>, s: nat): nat {
    if input == [] then 0 else Occurrences(input[..|input| - 1], s) + if input[|input| - 1] == s then 1 else 0
  }

  function Sum(f: seq<nat>, n: nat): nat
    requires n <= |f|
  {
    if n == 0 then 0 else Sum(f, n - 1) + f[n - 1]
  }

  lemma {:induction false} SumOfOccurrences(input: seq<Byte>, f: seq<nat>)
    requires |f| == SYMBOLS && forall s | 0 <= s < SYMBOLS :: f[s] == Occurrences(input, s)
    ensures Sum(f, SYMBOLS) == |input|
  {
    if input == [] {
      SumOfZeros(f, SYMBOLS);
    } else {
      var b := input[|input| - 1];
      var g := f[b := f[b] - 1];
      SumOfOccurrences(input[..|input| - 1], g);
      SumAfter(g, f, b, SYMBOLS);
    }
  }

  lemma {:induction false} SumOfZeros(f: seq<nat>, n: nat)
    requires n <= |f| && forall s | 0 <= s < n :: f[s] == 0
    ensures Sum(f, n) == 0
  {
    if n > 0 { SumOfZeros(f, n - 1); }
  }

  lemma {:induction false} SumAfter(g: seq<nat>, f: seq<nat>, b: nat, n: nat)
    requires |f| == |g| && b < |f| && n <= |f| && f[b] == g[b] + 1
    requires forall s | 0 <= s < |f| && s != b :: f[s] == g[s]
    ensures Sum(f, n) == Sum(g, n) + if b < n then 1 else 0
  {
    if n > 0 { SumAfter(g, f, b, n - 1); }
  }

  // ---- cumulative frequencies

  function Freq(cum: seq<int>, s: nat): int
    requires s + 1 < |cum|
  {
    cum[s + 1] - cum[s]
  }

  /** Cumulative frequencies that rise from 0 to `total`. */
  ghost predicate Cumulative(cum: seq<int>, total: nat) {
    && |cum| == SYMBOLS + 1 && cum[0] == 0 && cum[SYMBOLS] == total
    && forall s {:trigger Freq(cum, s)} | 0 <= s < SYMBOLS :: Freq(cum, s) >= 0
  }

  /** Symbols that do not occur have no share; those below `n` that occur have one. */
  ghost predicate Served(freqs: seq<nat>, cum: seq<int>, n: nat)
    requires |freqs| == SYMBOLS && |cum| == SYMBOLS + 1
  {
    && (forall s {:trigger Freq(cum, s)} | 0 <= s < SYMBOLS && freqs[s] == 0 :: Freq(cum, s) == 0)
    && (forall s {:trigger Freq(cum, s)} | 0 <= s < n && s < SYMBOLS && freqs[s] > 0 :: Freq(cum, s) > 0)
  }

  lemma {:induction false} CumulativeBounds(cum: seq<int>, total: nat, s: nat, t: nat)
    requires Cumulative(cum, total) && s <= t <= SYMBOLS
    ensures cum[s] <= cum[t] <= total
  {
    if t < SYMBOLS {
      AtMostTotal(cum, total, t);
    }
    if s < t {
      CumulativeBounds(cum, total, s, t - 1);
      assert Freq(cum, t - 1) >= 0;
    }
  }

  lemma {:induction false} AtMostTotal(cum: seq<int>, total: nat, t: nat)
    requires Cumulative(cum, total) && t <= SYMBOLS
    ensures cum[t] <= total
    decreases SYMBOLS - t
  {
    if t < SYMBOLS {
      AtMostTotal(cum, total, t + 1);
      assert Freq(cum, t) >= 0;
    }
  }

  /** With a symbol without a share and no share above one, the total stays below the number of symbols. */
  lemma {:induction false} Pigeonhole(cum: seq<int>, i: nat, n: nat)
    requires |cum| == SYMBOLS + 1 && cum[0] == 0 && n <= SYMBOLS && i < SYMBOLS && Freq(cum, i) <= 0
    requires forall s {:trigger Freq(cum, s)} | 0 <= s < SYMBOLS :: Freq(cum, s) <= 1
    ensures cum[n] <= if i < n then n - 1 else n
  {
    if n > 0 {
      Pigeonhole(cum, i, n - 1);
      assert Freq(cum, n - 1) <= 1;
    }
  }

  // ---- scaling

  function Scaled(cum: nat, target: nat, total: nat): nat
    requires total > 0
  {
    target * cum / total
  }

  lemma ScaledMono(a: nat, b: nat, target: nat, total: nat)
    requires total > 0 && a <= b
    ensures Scaled(a, target, total) <= Scaled(b, target, total)
  {
    MulMono(a, b, target);
    var p, q := Scaled(a, target, total), Scaled(b, target, total);
    assert target * a == total * p + (target * a) % total;
    assert target * b == total * q + (target * b) % total;
    if q < p { MulMono(q + 1, p, total); }
  }

  lemma ScaledTotal(target: nat, total: nat)
    requires total > 0
    ensures Scaled(total, target, total) == target && Scaled(0, target, total) == 0
  {
    var p := Scaled(total, target, total);
    assert target * total == total * p + (target * total) % total;
    if p < target { MulMono(p + 1, target, total); }
    if target < p { MulMono(target + 1, p, total); }
  }

  /** A symbol that occurs can only lose its share if the target is below the total. */
  lemma LosesOnlyBelow(a: nat, b: nat, target: nat, total: nat)
    requires total > 0 && a < b && Scaled(a, target, total) == Scaled(b, target, total)
    ensures target < total
  {
    var p := Scaled(a, target, total);
    assert target * a == total * p + (target * a) % total;
    assert target * b == total * p + (target * b) % total;
    assert target * b == target * a + target * (b - a);
    MulMono(1, b - a, target);
  }

  // ---- stealing

  /** One unit of share moves from the symbol `best` to the symbol `i`. */
  function Moved(cum: seq<int>, best: nat, i: nat): seq<int>
    requires |cum| == SYMBOLS + 1
  {
    seq(SYMBOLS + 1, j requires 0 <= j <= SYMBOLS =>
      if best < j <= i then cum[j] - 1 else if i < j <= best then cum[j] + 1 else cum[j])
  }

  lemma MovedFreq(cum: seq<int>, best: nat, i: nat, s: nat)
    requires |cum| == SYMBOLS + 1 && best < SYMBOLS && i < SYMBOLS && best != i && s < SYMBOLS
    ensures Freq(Moved(cum, best, i), s) == Freq(cum, s) + (if s == i then 1 else if s == best then -1 else 0)
  {
  }

  /** Stealing from a symbol with more than one unit serves symbol `i` and starves none. */
  lemma MovedServes(freqs: seq<nat>, cum: seq<int>, total: nat, best: nat, i: nat)
    requires |freqs| == SYMBOLS && Cumulative(cum, total) && best < SYMBOLS && i < SYMBOLS
    requires Served(freqs, cum, i) && Freq(cum, best) > 1 && Freq(cum, i) == 0 && freqs[i] > 0
    ensures Cumulative(Moved(cum, best, i), total) && Served(freqs, Moved(cum, best, i), i + 1)
  {
    var m := Moved(cum, best, i);
    forall s | 0 <= s < SYMBOLS
      ensures Freq(m, s) >= 0 && (freqs[s] == 0 ==> Freq(m, s) == 0) && (s <= i && freqs[s] > 0 ==> Freq(m, s) > 0)
    {
      MovedFreq(cum, best, i, s);
      assert Freq(cum, s) >= 0 && Freq(cum, best) > 1;
    }
  }

  /** The symbol with the smallest share above one, or -1 if there is none. */
  method FindBest(cumFreqs: array<int>, ghost total: nat) returns (bestSteal: int)
    requires cumFreqs.Length == SYMBOLS + 1 && Cumulative(cumFreqs[..], total) && total < UINT32_MAX
    ensures -1 <= bestSteal < SYMBOLS
    ensures bestSteal >= 0 ==> Freq(cumFreqs[..], bestSteal) > 1
    ensures forall s {:trigger Freq(cumFreqs[..], s)} | 0 <= s < SYMBOLS && Freq(cumFreqs[..], s) > 1 ::
              bestSteal >= 0 && Freq(cumFreqs[..], bestSteal) <= Freq(cumFreqs[..], s)
  {
    ghost var cum := cumFreqs[..];
    var bestFreq := UINT32_MAX;
    bestSteal := -1;
    for j := 0 to SYMBOLS
      invariant cumFreqs[..] == cum && -1 <= bestSteal < j
      invariant if bestSteal >= 0 then Freq(cum, bestSteal) == bestFreq > 1 else bestFreq == UINT32_MAX
      invariant forall s {:trigger Freq(cum, s)} | 0 <= s < j && Freq(cum, s) > 1 ::
                  bestSteal >= 0 && bestFreq <= Freq(cum, s)
    {
      var freq := cumFreqs[j + 1] - cumFreqs[j];
      assert freq == Freq(cum, j);
      CumulativeBounds(cum, total, 0, j);
      CumulativeBounds(cum, total, 0, j + 1);
      if freq > 1 && freq < bestFreq {
        bestFreq, bestSteal := freq, j;
      }
    }
  }

  /** The in-place shift of the cumulative frequencies between the two symbols. */
  method Steal(cumFreqs: array<int>, best: nat, i: nat)
    requires cumFreqs.Length == SYMBOLS + 1 && best < SYMBOLS && i < SYMBOLS && best != i
    modifies cumFreqs
    ensures cumFreqs[..] == Moved(old(cumFreqs[..]), best, i)
  {
    if best < i {
      for j := best + 1 to i + 1
        invariant forall k | 0 <= k <= SYMBOLS ::
                    cumFreqs[k] == if best < k < j then old(cumFreqs[k]) - 1 else old(cumFreqs[k])
      {
        cumFreqs[j] := cumFreqs[j] - 1;
      }
    } else {
      for j := i + 1 to best + 1
        invariant forall k | 0 <= k <= SYMBOLS ::
                    cumFreqs[k] == if i < k < j then old(cumFreqs[k]) + 1 else old(cumFreqs[k])
      {
        cumFreqs[j] := cumFreqs[j] + 1;
      }
    }
  }

  // ---- the statistics

  class SymbolStats {
    const freqs: array<nat>
    const cumFreqs: array<int>

    ghost predicate Shaped() {
      freqs.Length == SYMBOLS && cumFreqs.Length == SYMBOLS + 1
    }

    constructor ()
      ensures Shaped() && fresh(freqs) && fresh(cumFreqs)
    {
      freqs := new nat[SYMBOLS](_ => 0);
      cumFreqs := new int[SYMBOLS + 1](_ => 0);
    }

    method CountFreqs(input: seq<Byte>)
      requires Shaped() && |input| <= UINT32_MAX
      modifies freqs
      ensures forall s | 0 <= s < SYMBOLS :: freqs[s] == Occurrences(input, s)
    {
      for i := 0 to SYMBOLS
        invariant forall s | 0 <= s < i :: freqs[s] == 0
      {
        freqs[i] := 0;
      }
      for i := 0 to |input|
        invariant forall s | 0 <= s < SYMBOLS :: freqs[s] == Occurrences(input[..i], s)
      {
        assert input[..i + 1][..i] == input[..i];
        freqs[input[i]] := freqs[input[i]] + 1;
      }
      assert input[..|input|] == input;
    }

    method CalcCumFreqs()
      requires Shaped()
      modifies cumFreqs
      ensures forall i: nat | i <= SYMBOLS :: cumFreqs[i] == Sum(freqs[..], i)
    {
      ghost var f := freqs[..];
      cumFreqs[0] := 0;
      for i := 0 to SYMBOLS
        invariant freqs[..] == f && forall k: nat | k <= i :: cumFreqs[k] == Sum(f, k)
      {
        cumFreqs[i + 1] := cumFreqs[i] + freqs[i];
      }
    }

    /** Scales the cumulative frequencies; no symbol gains a share it did not have. */
    method Resample(target: nat)
      requires Shaped() && Sum(freqs[..], SYMBOLS) > 0
      requires forall i: nat | i <= SYMBOLS :: cumFreqs[i] == Sum(freqs[..], i)
      modifies cumFreqs
      ensures Cumulative(cumFreqs[..], target) && Served(freqs[..], cumFreqs[..], 0)
      ensures forall i: nat | i <= SYMBOLS ::
                cumFreqs[i] == Scaled(Sum(freqs[..], i), target, Sum(freqs[..], SYMBOLS))
    {
      ghost var f := freqs[..];
      var total := cumFreqs[SYMBOLS];
      ScaledTotal(target, total);
      for i := 1 to SYMBOLS + 1
        invariant freqs[..] == f && forall k: nat | k <= SYMBOLS ::
                    cumFreqs[k] == if k < i then Scaled(Sum(f, k), target, total) else Sum(f, k)
      {
        cumFreqs[i] := target * cumFreqs[i] / total;
      }
      ghost var cum := cumFreqs[..];
      forall s | 0 <= s < SYMBOLS ensures Freq(cum, s) >= 0 && (f[s] == 0 ==> Freq(cum, s) == 0) {
        ScaledMono(Sum(f, s), Sum(f, s + 1), target, total);
      }
    }

    /** The loop that serves the symbols which scaling left without a share. A symbol to
        steal from always exists. */
    method ServeAll(target: nat)
      requires Shaped() && SYMBOLS <= target <= UINT32_MAX
      requires Cumulative(cumFreqs[..], target) && Served(freqs[..], cumFreqs[..], 0)
      requires target == UINT32_MAX ==> Served(freqs[..], cumFreqs[..], SYMBOLS)
      modifies cumFreqs
      ensures Cumulative(cumFreqs[..], target) && Served(freqs[..], cumFreqs[..], SYMBOLS)
    {
      ghost var f := freqs[..];
      for i := 0 to SYMBOLS
        invariant freqs[..] == f && Cumulative(cumFreqs[..], target) && Served(f, cumFreqs[..], i)
        invariant target == UINT32_MAX ==> Served(f, cumFreqs[..], SYMBOLS)
      {
        ghost var cum := cumFreqs[..];
        assert Freq(cum, i) == cumFreqs[i + 1] - cumFreqs[i] >= 0;
        if freqs[i] > 0 && cumFreqs[i + 1] == cumFreqs[i] {
          var bestSteal := FindBest(cumFreqs, target);
          SomeoneHasMore(cum, target, i);
          assert cumFreqs[..] == cum;
          ghost var rich :| 0 <= rich < SYMBOLS && Freq(cum, rich) > 1;
          assert bestSteal != -1;
          if !(bestSteal < i) {
            assert bestSteal > i;
          }
          MovedServes(f, cum, target, bestSteal, i);
          Steal(cumFreqs, bestSteal, i);
        }
      }
    }

    /** Normalises the frequencies to the total `target`: the cumulative frequencies rise
        from 0 to it, and exactly the symbols that occur have a frequency. */
    method NormalizeFreqs(target: nat)
      requires Shaped() && SYMBOLS <= target <= UINT32_MAX && 0 < Sum(freqs[..], SYMBOLS) <= UINT32_MAX
      modifies freqs, cumFreqs
      ensures Cumulative(cumFreqs[..], target)
      ensures forall s {:trigger freqs[s]} | 0 <= s < SYMBOLS ::
                freqs[s] == Freq(cumFreqs[..], s) && (freqs[s] > 0 <==> old(freqs[s]) > 0)
    {
      ghost var f := freqs[..];
      CalcCumFreqs();
      Resample(target);
      if target == UINT32_MAX { NoneLoses(f, cumFreqs[..], target); }
      ServeAll(target);
      ghost var cum := cumFreqs[..];
      assert cumFreqs[0] == 0 && cumFreqs[SYMBOLS] == target;
      for i := 0 to SYMBOLS
        invariant cumFreqs[..] == cum
        invariant forall s {:trigger freqs[s]} | 0 <= s < SYMBOLS :: freqs[s] == if s < i then Freq(cum, s) else f[s]
      {
        assert Freq(cum, i) == cumFreqs[i + 1] - cumFreqs[i] >= 0;
        if freqs[i] == 0 {
          assert cumFreqs[i + 1] == cumFreqs[i];
        } else {
          assert cumFreqs[i + 1] > cumFreqs[i];
        }
        freqs[i] := cumFreqs[i + 1] - cumFreqs[i];
      }
    }
  }

  lemma SomeoneHasMore(cum: seq<int>, total: nat, i: nat)
    requires Cumulative(cum, total) && total >= SYMBOLS && i < SYMBOLS && Freq(cum, i) == 0
    ensures exists s :: 0 <= s < SYMBOLS && Freq(cum, s) > 1
  {
    if forall s {:trigger Freq(cum, s)} | 0 <= s < SYMBOLS :: Freq(cum, s) <= 1 {
      Pigeonhole(cum, i, SYMBOLS);
    }
  }

  /** With the largest target, scaling leaves every symbol that occurs its share. */
  lemma NoneLoses(f: seq<nat>, cum: seq<int>, target: nat)
    requires |f| == SYMBOLS && |cum| == SYMBOLS + 1 && 0 < Sum(f, SYMBOLS) <= target
    requires Cumulative(cum, target) && Served(f, cum, 0)
    requires forall i: nat | i <= SYMBOLS :: cum[i] == Scaled(Sum(f, i), target, Sum(f, SYMBOLS))
    ensures Served(f, cum, SYMBOLS)
  {
    forall s | 0 <= s < SYMBOLS && f[s] > 0 ensures Freq(cum, s) > 0 {
      assert Freq(cum, s) >= 0;
      if Freq(cum, s) == 0 { LosesOnlyBelow(Sum(f, s), Sum(f, s + 1), target, Sum(f, SYMBOLS)); }
    }
  }

  // ---- the decoding table

  /** Which symbol a slot of the range belongs to. */
  ghost predicate Decodes(symbol: Byte, cum: seq<int>, x: int)
    requires |cum| == SYMBOLS + 1
  {
    cum[symbol] <= x < cum[symbol + 1]
  }

  /** The table inverts the cumulative frequencies: every slot has the one symbol whose range holds it. */
  method BuildTable(cumFreqs: array<int>, target: nat) returns (cum2sym: array<Byte>)
    requires cumFreqs.Length == SYMBOLS + 1 && Cumulative(cumFreqs[..], target)
    ensures cum2sym.Length == target
    ensures forall x {:trigger cum2sym[x]} | 0 <= x < target :: Decodes(cum2sym[x], cumFreqs[..], x)
  {
    ghost var cum := cumFreqs[..];
    cum2sym := new Byte[target](_ => 0);
    for s := 0 to SYMBOLS
      invariant cumFreqs[..] == cum
      invariant forall x {:trigger cum2sym[x]} | 0 <= x < cum[s] && x < target :: Decodes(cum2sym[x], cum, x)
    {
      CumulativeBounds(cum, target, 0, s);
      CumulativeBounds(cum, target, s, s + 1);
      for i := cumFreqs[s] to cumFreqs[s + 1]
        invariant cumFreqs[..] == cum
        invariant forall x {:trigger cum2sym[x]} | 0 <= x < i :: Decodes(cum2sym[x], cum, x)
      {
        cum2sym[i] := s;
      }
    }
  }

  /** No other symbol's range holds the slot, so that decoding is unambiguous. */
  lemma DecodingIsUnique(cum: seq<int>, total: nat, x: int, s: Byte, t: Byte)
    requires Cumulative(cum, total) && Decodes(s, cum, x) && Decodes(t, cum, x)
    ensures s == t
  {
    if s < t { CumulativeBounds(cum, total, s + 1, t); }
    if t < s { CumulativeBounds(cum, total, t + 1, s); }
  }

  /** The whole way from bytes to table: a symbol has a range exactly if it occurs in the input. */
  method NormalizeBytes(input: seq<Byte>, target: nat) returns (stats: SymbolStats, cum2sym: array<Byte>)
    requires 0 < |input| <= UINT32_MAX && SYMBOLS <= target <= UINT32_MAX
    ensures stats.Shaped() && Cumulative(stats.cumFreqs[..], target) && cum2sym.Length == target
    ensures forall s {:trigger stats.freqs[s]} | 0 <= s < SYMBOLS ::
              stats.freqs[s] == Freq(stats.cumFreqs[..], s) && (stats.freqs[s] > 0 <==> Occurrences(input, s) > 0)
    ensures forall x {:trigger cum2sym[x]} | 0 <= x < target :: Decodes(cum2sym[x], stats.cumFreqs[..], x)
  {
    stats := new SymbolStats();
    stats.CountFreqs(input);
    SumOfOccurrences(input, stats.freqs[..]);
    stats.NormalizeFreqs(target);
    cum2sym := BuildTable(stats.cumFreqs, target);
  }
}
