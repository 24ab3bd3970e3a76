/**
 One's complement checksums (RFC 1071, RFC 1624): the 16- and 32-bit additions with end-around carry of
 `csum.h`, the double fold, and the two ways a header checksum is brought up to date.
 */
module Checksum {
  import opened Wire

  const ONES16: u16 := 0xffff
  const ONES32: u32 := 0xffff_ffff

  // ---------------------------------------------------------------- csum.h

  /** `pcn_csum_fold`. */
  function Fold(csum: u32): u16 {
    var sum1 := csum % 0x1_0000 + csum / 0x1_0000;
    var sum2 := sum1 % 0x1_0000 + sum1 / 0x1_0000;
    ONES16 - sum2
  }

  /** `pcn_csum_add`: the carry out of the 32-bit sum is added back in. */
  function Add(csum: u32, addend: u32): u32 {
    var res := if csum + addend >= 0x1_0000_0000 then csum + addend - 0x1_0000_0000 else csum + addend;
    if res < addend then res + 1 else res
  }

  /** `pcn_csum16_add`. */
  function Add16(csum: u16, addend: u16): u16 {
    var res := if csum + addend >= 0x1_0000 then csum + addend - 0x1_0000 else csum + addend;
    if res < addend then res + 1 else res
  }

  /** What `pcn_csum_replace_by_diff` stores over a checksum field. */
  function ByDiff(sum: u16, diff: u32): u16 {
    Fold(Add(diff, ONES32 - sum))
  }

  datatype Replaced = Stored(check: u16) | Rejected

  /** What `pcn_l3_csum_replace` stores over a checksum field, by its flags. Only values, no packet yet. */
  function Replace(check: u16, oldValue: u32, newValue: u32, flags: u32): Replaced {
    if flags >= 16 then Rejected
    else if flags == 0 then Stored(ByDiff(check, newValue))
    else if flags == 2 then
      Stored(ONES16 - Add16(Add16(ONES16 - check, ONES16 - oldValue % 0x1_0000), newValue % 0x1_0000))
    else if flags == 4 then Stored(ByDiff(check, Add(newValue, ONES32 - oldValue)))
    else Rejected
  }

  /** The sum `bpf_csum_diff` forms over 32-bit words: they are added one after the other. */
  function Diff(words: seq<u32>, n: nat, seed: u32): u32
    requires n <= |words|
  {
    if n == 0 then seed else Add(Diff(words, n - 1, seed), words[n - 1])
  }

  // ---------------------------------------------------------------- the one's complement sum

  /** The one's complement sum of the first n words. */
  function OnesSum(words: seq<u16>, n: nat): u16
    requires n <= |words|
  {
    if n == 0 then 0 else Add16(OnesSum(words, n - 1), words[n - 1])
  }

  /** A header checks out when its words, checksum included, sum to all ones (section 3.1 of RFC 791). */
  predicate Valid(words: seq<u16>) {
    OnesSum(words, |words|) == ONES16
  }

  function Total(words: seq<u16>, n: nat): nat
    requires n <= |words|
  {
    if n == 0 then 0 else Total(words, n - 1) + words[n - 1]
  }

  /** a and b are equal in one's complement: they differ by a multiple of 65535. */
  predicate Cong(a: int, b: int) {
    (a - b) % 0xffff == 0
  }

  lemma {:induction false} CongIf(a: int, b: int, k: int)
    requires a == b + 0xffff * k
    ensures Cong(a, b)
  {
    ModUnique(a - b, 0xffff, k, 0);
  }

  lemma {:induction false} CongSum(a: int, b: int, c: int, d: int)
    requires Cong(a, b) && Cong(c, d)
    ensures Cong(a + c, b + d) && Cong(a - c, b - d)
  {
    var k, l := (a - b) / 0xffff, (c - d) / 0xffff;
    CongIf(a + c, b + d, k + l);
    CongIf(a - c, b - d, k - l);
  }

  lemma {:induction false} CongTrans(a: int, b: int, c: int)
    requires Cong(a, b) && Cong(b, c)
    ensures Cong(a, c)
  {
    CongIf(a, c, (a - b) / 0xffff + (b - c) / 0xffff);
  }

  lemma {:induction false} AddIsSum(a: u32, b: u32)
    ensures Cong(Add(a, b), a + b) && (Add(a, b) == 0 <==> a == 0 && b == 0)
  {
    if a + b >= 0x1_0000_0000 {
      CongIf(Add(a, b), a + b, -0x1_0001);
    } else {
      CongIf(Add(a, b), a + b, 0);
    }
  }

  lemma {:induction false} Add16IsSum(a: u16, b: u16)
    ensures Cong(Add16(a, b), a + b) && (Add16(a, b) == 0 <==> a == 0 && b == 0)
  {
    if a + b >= 0x1_0000 {
      CongIf(Add16(a, b), a + b, -1);
    } else {
      CongIf(Add16(a, b), a + b, 0);
    }
  }

  /** Folding twice is enough: it complements the 16-bit one's complement value of its argument. */
  lemma {:induction false} FoldComplements(x: u32)
    ensures Cong(Fold(x) + x, 0xffff) && (Fold(x) == ONES16 <==> x == 0)
  {
    var h: int, l: int := x / 0x1_0000, x % 0x1_0000;
    var sum1 := l + h;
    var carry := sum1 / 0x1_0000;
    assert Fold(x) == ONES16 - (sum1 - 0xffff * carry) && x == sum1 + 0xffff * h;
    CongIf(Fold(x) + x, 0xffff, carry + h);
  }

  lemma {:induction false} OnesSumIsTotal(words: seq<u16>, n: nat)
    requires n <= |words|
    ensures Cong(OnesSum(words, n), Total(words, n)) && (OnesSum(words, n) == 0 <==> Total(words, n) == 0)
  {
    if n > 0 {
      OnesSumIsTotal(words, n - 1);
      var s: int, w: int := OnesSum(words, n - 1), words[n - 1];
      Add16IsSum(s, w);
      CongSum(s, Total(words, n - 1), w, w);
      CongTrans(OnesSum(words, n), s + w, Total(words, n));
    }
  }

  lemma {:induction false} ValidIff(words: seq<u16>)
    ensures Valid(words) <==> Total(words, |words|) > 0 && Cong(Total(words, |words|), 0)
  {
    hide Total;
    var s, t := OnesSum(words, |words|), Total(words, |words|);
    OnesSumIsTotal(words, |words|);
    if Valid(words) {
      CongSum(s, t, s, s);
    } else if Cong(t, 0) {
      CongTrans(s, t, 0);
    }
  }

  lemma {:induction false} TotalUpdate(words: seq<u16>, i: nat, v: u16, n: nat)
    requires i < |words| && n <= |words|
    ensures Total(words[i := v], n) == if i < n then Total(words, n) - words[i] + v else Total(words, n)
  {
    if n > 0 {
      TotalUpdate(words, i, v, n - 1);
    }
  }

  lemma {:induction false} TotalZero(words: seq<u16>, n: nat)
    requires n <= |words|
    ensures Total(words, n) == 0 <==> forall j :: 0 <= j < n ==> words[j] == 0
  {
    if n > 0 {
      TotalZero(words, n - 1);
    }
  }

  // ---------------------------------------------------------------- byte order

  function Swap(w: u16): u16 {
    w % 256 * 256 + w / 256
  }

  function SwapAll(words: seq<u16>): (r: seq<u16>)
    ensures |r| == |words|
    ensures forall i :: 0 <= i < |r| ==> r[i] == Swap(words[i])
  {
    seq(|words|, i requires 0 <= i < |words| => Swap(words[i]))
  }

  /** In one's complement, exchanging the octets of a word multiplies it by 256. */
  lemma {:induction false} SwapIsTimes256(w: u16)
    ensures Cong(Swap(w), 256 * w) && (Swap(w) == 0 <==> w == 0) && Swap(Swap(w)) == w
  {
    var h: int, l: int := w / 256, w % 256;
    var x: int := 256 * l + h;
    assert Swap(w) == x && w == 256 * h + l;
    assert x / 256 == l && x % 256 == h;
    CongIf(x, 256 * (256 * h + l), -h);
  }

  lemma {:induction false} SwapStep(t': int, t: int, w: u16)
    requires Cong(t', 256 * t)
    ensures Cong(t' + Swap(w), 256 * (t + w))
  {
    hide Cong, Swap;
    SwapIsTimes256(w);
    CongSum(t', 256 * t, Swap(w), 256 * w);
  }

  lemma {:induction false} TotalSwapped(words: seq<u16>, n: nat)
    requires n <= |words|
    ensures Cong(Total(SwapAll(words), n), 256 * Total(words, n))
    ensures Total(SwapAll(words), n) == 0 <==> Total(words, n) == 0
  {
    hide Cong, Swap, SwapAll;
    if n == 0 {
      CongRefl(0);
    } else {
      TotalSwapped(words, n - 1);
      SwapStep(Total(SwapAll(words), n - 1), Total(words, n - 1), words[n - 1]);
      SwapIsTimes256(words[n - 1]);
    }
  }

  /** A checksum that is valid in one byte order is valid in the other (section 2(B) of RFC 1071). */
  lemma {:induction false} ValidInEitherOrder(words: seq<u16>)
    ensures Valid(SwapAll(words)) <==> Valid(words)
  {
    if Valid(words) {
      SwapKeepsValid(words);
    }
    if Valid(SwapAll(words)) {
      SwapKeepsValid(SwapAll(words));
      assert SwapAll(SwapAll(words)) == words by {
        hide Swap;
        forall i | 0 <= i < |words| ensures Swap(Swap(words[i])) == words[i] {
          SwapIsTimes256(words[i]);
        }
      }
    }
  }

  lemma {:induction false} SwapKeepsValid(words: seq<u16>)
    requires Valid(words)
    ensures Valid(SwapAll(words))
  {
    hide Valid;
    var n := |words|;
    ValidIff(words);
    ValidIff(SwapAll(words));
    TotalSwapped(words, n);
    var t := Total(words, n);
    CongIf(256 * t, 0, 256 * (t / 0xffff));
    CongTrans(Total(SwapAll(words), n), 256 * t, 0);
  }

  // ---------------------------------------------------------------- a checksum computed from scratch

  function Pair(lo: u16, hi: u16): u32 {
    var l: int, h: int := lo, hi;
    l + 0x1_0000 * h
  }

  lemma {:induction false} PairIsSum(lo: u16, hi: u16)
    ensures Cong(Pair(lo, hi), lo as int + hi) && (Pair(lo, hi) == 0 <==> lo == 0 && hi == 0)
  {
    CongIf(Pair(lo, hi), lo as int + hi, hi);
  }

  /** The 32-bit words of a header made of 16-bit ones, as a little-endian host reads them. */
  function Pairs(words: seq<u16>): (r: seq<u32>)
    requires |words| % 2 == 0
    ensures |r| == |words| / 2
    ensures forall i :: 0 <= i < |r| ==> r[i] == Pair(words[2 * i], words[2 * i + 1])
  {
    seq(|words| / 2, i requires 0 <= i < |words| / 2 => Pair(words[2 * i], words[2 * i + 1]))
  }

  lemma {:induction false} DiffIsTotal(words: seq<u16>, n: nat)
    requires |words| % 2 == 0 && n <= |words| / 2
    ensures Cong(Diff(Pairs(words), n, 0), Total(words, 2 * n))
    ensures Diff(Pairs(words), n, 0) == 0 <==> Total(words, 2 * n) == 0
  {
    hide Cong, Add, Pair;
    if n == 0 {
      CongRefl(0);
    } else {
      DiffIsTotal(words, n - 1);
      var d: int, lo: int, hi: int := Diff(Pairs(words), n - 1, 0), words[2 * n - 2], words[2 * n - 1];
      var w := Pair(lo, hi);
      assert Total(words, 2 * n) == Total(words, 2 * n - 1) + hi;
      assert Total(words, 2 * n - 1) == Total(words, 2 * n - 2) + lo;
      AddIsSum(d, w);
      PairIsSum(lo, hi);
      CongSum(d, Total(words, 2 * n - 2), w, lo + hi);
      CongTrans(Diff(Pairs(words), n, 0), d + w, Total(words, 2 * n));
    }
  }

  /**
   The checksum `far_bpf.c` computes over a header whose checksum field (word c) is zero makes the
   header valid: the difference against nothing, added to the complement of zero, folded.
   */
  lemma {:induction false} FreshChecksumValid(words: seq<u16>, c: nat)
    requires |words| % 2 == 0 && c < |words| && words[c] == 0 && exists i :: 0 <= i < |words| && words[i] != 0
    ensures Valid(words[c := ByDiff(0, Diff(Pairs(words), |words| / 2, 0))])
  {
    hide Diff, OnesSum, Fold, Add;
    var n := |words|;
    var d: int, t: int := Diff(Pairs(words), n / 2, 0), Total(words, n);
    DiffIsTotal(words, n / 2);
    TotalZero(words, n);
    var x := Add(d, ONES32);
    AddIsSum(d, ONES32);
    FoldComplements(x);
    var check := Fold(x);
    TotalUpdate(words, c, check, n);
    ValidIff(words[c := check]);
    // check + x, x - (d + ONES32), d - t and ONES32 are all zero in one's complement
    CongIf(ONES32, 0, 0x1_0001);
    CongSum(d, t, ONES32, 0);
    CongTrans(x, d + ONES32, t);
    CongSum(check + x, 0xffff, x, t);
    CongIf(0xffff - t, -t, 1);
    CongTrans(check, 0xffff - t, -t);
    CongSum(check, -t, t, t);
  }

  // ---------------------------------------------------------------- a checksum brought up to date

  lemma {:induction false} Replace16Sum(check: u16, m: u16, v: u16)
    ensures var r := Replace(check, m, v, 2); r.Stored? && Cong(r.check + v, check + m)
    ensures v == 0 ==>
      (Replace(check, m, v, 2).check == 0 <==> !(check == ONES16 && m == ONES16))
      || (check + m != 0xffff && check + m != 0x1_fffe)
  {
    hide Cong;
    var a := Add16(ONES16 - check, ONES16 - m);
    var b := Add16(a, v);
    Add16IsSum(ONES16 - check, ONES16 - m);
    Add16IsSum(a, v);
    assert m % 0x1_0000 == m && v % 0x1_0000 == v;
    assert Replace(check, m, v, 2) == Stored(ONES16 - b);
    CongRefl(v);
    CongSum(a, (ONES16 - check) + (ONES16 - m), v, v);
    CongTrans(b, a + v, (ONES16 - check) + (ONES16 - m) + v);
    CongRefl(ONES16 + v);
    CongSum(ONES16 + v, ONES16 + v, b, (ONES16 - check) + (ONES16 - m) + v);
    CongOnes(check + m);
    CongTrans(ONES16 - b + v, check + m - ONES16, check + m);
  }

  lemma {:induction false} CongRefl(a: int)
    ensures Cong(a, a)
  {
  }

  lemma {:induction false} CongOnes(a: int)
    ensures Cong(a - ONES16, a)
  {
    CongIf(a - ONES16, a, -1);
  }

  /**
   Replacing the 16-bit word i of a valid header (flags 2) keeps it valid (section 3 of RFC 1624),
   except when nothing but zeros would be left: then it does exactly when word and checksum were both 0xFFFF.
   */
  lemma {:induction false} Update16Iff(words: seq<u16>, c: nat, i: nat, v: u16)
    requires Valid(words) && c < |words| && i < |words| && c != i
    ensures Replace(words[c], words[i], v, 2).Stored?
    ensures Valid(words[i := v][c := Replace(words[c], words[i], v, 2).check])
            <==> v != 0 || (exists j :: 0 <= j < |words| && j != i && j != c && words[j] != 0)
                 || (words[c] == ONES16 && words[i] == ONES16)
  {
    hide Valid, Replace, Cong, Total;
    var n, check: int, m: int := |words|, words[c], words[i];
    Replace16Sum(check, m, v);
    var check' := Replace(check, m, v, 2).check;
    var w1 := words[i := v];
    var w2 := w1[c := check'];
    TotalUpdate(words, i, v, n);
    TotalUpdate(w1, c, check', n);
    ValidIff(words);
    ValidIff(w2);
    var others := Total(words, n) - m - check;
    Others(words, c, i);
    CongRefl(others);
    CongSum(check' + v, check + m, others, others);
    assert check' + v + others == Total(w2, n) && check + m + others == Total(words, n);
    CongTrans(Total(w2, n), Total(words, n), 0);
    if others == 0 && v == 0 {
      OnlyTwo(check, m);
    }
  }

  lemma {:induction false} OnlyTwo(check: u16, m: u16)
    requires check + m > 0 && Cong(check + m, 0)
    ensures check + m == 0xffff || check + m == 0x1_fffe
  {
  }

  /** What the words other than two add to the total. */
  lemma {:induction false} Others(words: seq<u16>, c: nat, i: nat)
    requires c < |words| && i < |words| && c != i
    ensures var others := Total(words, |words|) - words[i] - words[c];
            others >= 0 && (others == 0 <==> forall j :: 0 <= j < |words| && j != i && j != c ==> words[j] == 0)
  {
    hide Total;
    var n := |words|;
    var w := words[i := 0][c := 0];
    TotalUpdate(words, i, 0, n);
    TotalUpdate(words[i := 0], c, 0, n);
    TotalZero(w, n);
    assert forall j :: 0 <= j < n && j != i && j != c ==> w[j] == words[j];
  }

  lemma {:induction false} Replace32Sum(check: u16, m: u32, v: u32)
    ensures var r := Replace(check, m, v, 4); r.Stored? && Cong(r.check + v, check + m)
    ensures v == 0 && (m > 0 || check > 0) && Cong(check + m, 0) ==> Replace(check, m, v, 4).check == 0
  {
    hide Cong, Fold, Add;
    var a := Add(v, ONES32 - m);
    var x := Add(a, ONES32 - check);
    AddIsSum(v, ONES32 - m);
    AddIsSum(a, ONES32 - check);
    FoldComplements(x);
    var r := Fold(x);
    assert Replace(check, m, v, 4) == Stored(r);
    CongRefl(ONES32 - check);
    CongSum(a, v + (ONES32 - m), ONES32 - check, ONES32 - check);
    CongTrans(x, a + (ONES32 - check), v + (ONES32 - m) + (ONES32 - check));
    CongRefl(v);
    CongSum(r + x, 0xffff, x, v + (ONES32 - m) + (ONES32 - check));
    CongSum(r, 0xffff - (v + (ONES32 - m) + (ONES32 - check)), v, v);
    CongMany(check + m);
    CongTrans(r + v, 0xffff - (ONES32 - m) - (ONES32 - check), check + m);
    if v == 0 && Cong(check + m, 0) {
      CongTrans(r, check + m, 0);
      SmallMultiple(r);
    }
  }

  lemma {:induction false} CongMany(a: int)
    ensures Cong(a + 0xffff - ONES32 - ONES32, a)
  {
    CongIf(a + 0xffff - ONES32 - ONES32, a, 1 - 0x1_0001 - 0x1_0001);
  }

  lemma {:induction false} SmallMultiple(r: u16)
    requires Cong(r, 0)
    ensures r == 0 || r == 0xffff
  {
  }

  /**
   Replacing the 32-bit word made of the 16-bit words i and i + 1 of a valid header (flags 4) keeps it
   valid exactly when something other than zeros is left beside the checksum.
   */
  lemma {:induction false} Update32Iff(words: seq<u16>, c: nat, i: nat, v: u32)
    requires Valid(words) && c < |words| && i + 1 < |words| && c != i && c != i + 1
    ensures var m := Pair(words[i], words[i + 1]);
            Replace(words[c], m, v, 4).Stored?
            && (Valid(words[i := v % 0x1_0000][i + 1 := v / 0x1_0000][c := Replace(words[c], m, v, 4).check])
                <==> v != 0 || exists j :: 0 <= j < |words| && j != i && j != i + 1 && j != c && words[j] != 0)
  {
    hide Valid, Replace, Cong, Total;
    var n, check: int, m: int := |words|, words[c], Pair(words[i], words[i + 1]);
    var halves: int := words[i] as int + words[i + 1];
    Replace32Sum(check, m, v);
    var check' := Replace(check, m, v, 4).check;
    var lo: int, hi: int := v % 0x1_0000, v / 0x1_0000;
    var w1 := words[i := lo];
    var w2 := w1[i + 1 := hi];
    var w3 := w2[c := check'];
    TotalUpdate(words, i, lo, n);
    TotalUpdate(w1, i + 1, hi, n);
    TotalUpdate(w2, c, check', n);
    ValidIff(words);
    ValidIff(w3);
    var others := Total(words, n) - halves - check;
    ThreeOthers(words, c, i);
    // the 32-bit words and the sums of their halves differ by 65535 times the upper half
    CongHalves(v);
    CongHalves(m);
    assert m % 0x1_0000 == words[i] && m / 0x1_0000 == words[i + 1];
    CongRefl(check' + others);
    CongRefl(check + others);
    CongSum(check' + v, check + m, v, lo + hi);
    CongTail(check', lo + hi, check, m, halves, v, others);
    CongTrans(Total(w3, n), Total(words, n), 0);
    if others == 0 {
      CongSum(m, halves, check, check);
      CongTrans(m + check, Total(words, n), 0);
    }
  }

  lemma {:induction false} CongHalves(v: u32)
    ensures Cong(v, v % 0x1_0000 + v / 0x1_0000)
  {
    CongIf(v, v % 0x1_0000 + v / 0x1_0000, v / 0x1_0000);
  }

  lemma {:induction false} CongTail(check': int, halves': int, check: int, m: int, halves: int, v: int, others: int)
    requires Cong(check' + v, check + m) && Cong(v, halves') && Cong(m, halves)
    ensures Cong(check' + halves' + others, check + halves + others)
  {
    var a, b, d := (check' + v - check - m) / 0xffff, (v - halves') / 0xffff, (m - halves) / 0xffff;
    CongIf(check' + halves' + others, check + halves + others, a - b + d);
  }

  lemma {:induction false} ThreeOthers(words: seq<u16>, c: nat, i: nat)
    requires c < |words| && i + 1 < |words| && c != i && c != i + 1
    ensures var others := Total(words, |words|) - words[i] - words[i + 1] - words[c];
            others >= 0
            && (others == 0 <==> forall j :: 0 <= j < |words| && j != i && j != i + 1 && j != c ==> words[j] == 0)
  {
    hide Total;
    var n := |words|;
    var w1 := words[i := 0];
    var w2 := w1[i + 1 := 0];
    var w3 := w2[c := 0];
    TotalUpdate(words, i, 0, n);
    TotalUpdate(w1, i + 1, 0, n);
    TotalUpdate(w2, c, 0, n);
    TotalZero(w3, n);
    assert forall j :: 0 <= j < n && j != i && j != i + 1 && j != c ==> w3[j] == words[j];
  }
}
