/** The input masks applied on every keystroke to CPF numbers and phone numbers. Each
    mask is modelled as the source's chain of regular-expression rewrites, and proved equal
    to a direct description of where the punctuation goes. */
module Formatters {
  import opened Wrappers
  import opened Types

  // ---------------------------------------------------------------------------
  // The rewrite steps

  /** `value.replace(/\D/g, '')`: the ASCII digits of `s`, in order. */
  function StripNonDigits(s: string): (r: string)
    ensures AllDigits(r) && |r| <= |s|
  {
    if s == [] then [] else (if IsDigit(s[0]) then [s[0]] else []) + StripNonDigits(s[1..])
  }

  /** `if (v.length > 11) v = v.slice(0, 11)`. */
  function Truncate11(v: string): (r: string)
    ensures |r| <= 11
  {
    if |v| > 11 then v[..11] else v
  }

  /** Where a non-global search for `\d{k}` starting at `from` matches: the leftmost
      position at or after `from` where `k` consecutive digits begin. */
  function FirstRun(v: string, k: nat, from: nat): (r: Option<nat>)
    ensures r.Some? ==> from <= r.value && r.value + k <= |v| && AllDigits(v[r.value..r.value + k])
    decreases |v| - from
  {
    if from + k > |v| then None
    else if AllDigits(v[from..from + k]) then Some(from)
    else FirstRun(v, k, from + 1)
  }

  /** `v.replace(/(\d{a})(\d)/, '$1' + sep + '$2')`: the leftmost run of `a + 1` digits
      gets `sep` inserted after its first `a` digits; without such a run `v` is unchanged. */
  function SplitFirstRun(v: string, a: nat, sep: string): string
  {
    match FirstRun(v, a + 1, 0)
    case None => v
    case Some(p) => v[..p + a] + sep + v[p + a..]
  }

  /** Where `/(\d{3})(\d{1,2})$/` matches: the leftmost position at or after `from` from
      which the rest of `v` is four or five digits (three for the first group, then one or
      two that reach the end). */
  function EndMatch(v: string, from: nat): (r: Option<nat>)
    ensures r.Some? ==> from <= r.value && r.value + 4 <= |v|
    decreases |v| - from
  {
    if from + 4 > |v| then None
    else if |v| - from <= 5 && AllDigits(v[from..]) then Some(from)
    else EndMatch(v, from + 1)
  }

  /** `v.replace(/(\d{3})(\d{1,2})$/, '$1-$2')`. */
  function HyphenBeforeCheckDigits(v: string): string
  {
    match EndMatch(v, 0)
    case None => v
    case Some(p) => v[..p + 3] + "-" + v[p + 3..]
  }

  /** `v.replace(/^(\d{2})(\d)/, '($1) $2')`: with at least three leading digits, the first
      two are wrapped as an area code. */
  function AreaCode(v: string): string
  {
    if |v| >= 3 && AllDigits(v[..3]) then "(" + v[..2] + ") " + v[2..] else v
  }

  // ---------------------------------------------------------------------------
  // The two masks as the source writes them

  /** The three punctuation rewrites of `formatarCPF`, applied to its digit string `v`. */
  function CpfRewrites(v: string): string
  {
    var v1 := SplitFirstRun(v, 3, ".");
    var v2 := SplitFirstRun(v1, 3, ".");
    HyphenBeforeCheckDigits(v2)
  }

  /** `formatarCPF`: keep the first eleven digits, then punctuate. */
  function FormatarCpf(value: string): string
  {
    CpfRewrites(Truncate11(StripNonDigits(value)))
  }

  /** The rewrites of `formatarTelefone`, applied to its digit string `v`. */
  function TelefoneRewrites(v: string): string
  {
    var v1 := AreaCode(v);
    if |v1| > 9 then SplitFirstRun(v1, 5, "-") else SplitFirstRun(v1, 4, "-")
  }

  /** `formatarTelefone`: keep the first eleven digits, then punctuate. */
  function FormatarTelefone(value: string): string
  {
    TelefoneRewrites(Truncate11(StripNonDigits(value)))
  }

  // ---------------------------------------------------------------------------
  // Reference descriptions of the masks

  /** A CPF mask written out: `DDD.DDD.DDD-DD`, cut short after the digits there are. */
  function CpfMask(d: string): string
    requires |d| <= 11
  {
    if |d| <= 3 then d
    else if |d| <= 6 then d[..3] + "." + d[3..]
    else if |d| <= 9 then d[..3] + "." + d[3..6] + "." + d[6..]
    else d[..3] + "." + d[3..6] + "." + d[6..9] + "-" + d[9..]
  }

  /** A phone mask written out: `(DD) DDDDD-DDDD`, cut short after the digits there are. */
  function PhoneMask(d: string): string
    requires |d| <= 11
  {
    if |d| <= 2 then d
    else if |d| <= 7 then "(" + d[..2] + ") " + d[2..]
    else "(" + d[..2] + ") " + d[2..7] + "-" + d[7..]
  }

  // ---------------------------------------------------------------------------
  // Facts about the search steps and the digit filter

  /** A search for `k` digits in a row never matches across a non-digit: it goes on after it. */
  lemma {:induction false} FirstRunSkip(v: string, k: nat, from: nat, j: nat)
    requires from <= j < |v| && !IsDigit(v[j]) && j < from + k
    ensures FirstRun(v, k, from) == FirstRun(v, k, j + 1)
    decreases j - from
  {
    if from + k <= |v| {
      assert v[from..from + k][j - from] == v[j];
      if from < j {
        FirstRunSkip(v, k, from + 1, j);
      }
    }
  }

  /** The end-anchored search never matches before the last non-digit. */
  lemma {:induction false} EndMatchSkip(v: string, from: nat, j: nat)
    requires from <= j < |v| && !IsDigit(v[j])
    ensures EndMatch(v, from) == EndMatch(v, j + 1)
    decreases j - from
  {
    if from + 4 <= |v| {
      assert v[from..][j - from] == v[j];
      if from < j {
        EndMatchSkip(v, from + 1, j);
      }
    }
  }

  lemma {:induction false} StripConcat(a: string, b: string)
    ensures StripNonDigits(a + b) == StripNonDigits(a) + StripNonDigits(b)
    decreases |a|
  {
    if a == [] {
      assert a + b == b;
    } else {
      var head := if IsDigit(a[0]) then [a[0]] else [];
      assert (a + b)[0] == a[0];
      assert (a + b)[1..] == a[1..] + b;
      assert StripNonDigits(a + b) == head + StripNonDigits(a[1..] + b);
      StripConcat(a[1..], b);
      assert StripNonDigits(a) == head + StripNonDigits(a[1..]);
    }
  }

  lemma {:induction false} StripDigits(s: string)
    requires AllDigits(s)
    ensures StripNonDigits(s) == s
    decreases |s|
  {
    if s != [] {
      StripDigits(s[1..]);
    }
  }

  lemma StripAppendSeparated(a: string, sep: string, b: string)
    requires AllDigits(b) && StripNonDigits(sep) == []
    ensures StripNonDigits(a + sep + b) == StripNonDigits(a) + b
  {
    StripDigits(b);
    StripConcat(a, sep);
    StripConcat(a + sep, b);
  }

  // ---------------------------------------------------------------------------
  // The CPF mask

  /** On a string of at most eleven digits, the three rewrites of the source produce
      exactly the written-out mask. */
  lemma CpfRewritesIsMask(d: string)
    requires |d| <= 11 && AllDigits(d)
    ensures CpfRewrites(d) == CpfMask(d)
  {
    var n := |d|;
    if n < 4 {
      assert FirstRun(d, 4, 0) == None;
    } else {
      var v1 := CpfFirstDot(d);
      if n < 7 {
        CpfShort(d, v1);
      } else {
        var v2 := CpfSecondDot(d, v1);
        CpfLong(d, v2);
      }
    }
  }

  /** From four digits on, the first rewrite puts a `.` after the third digit. */
  lemma CpfFirstDot(d: string) returns (v1: string)
    requires 4 <= |d| <= 11 && AllDigits(d)
    ensures v1 == SplitFirstRun(d, 3, ".") && v1 == d[..3] + "." + d[3..]
  {
    assert FirstRun(d, 4, 0) == Some(0);
    v1 := d[..3] + "." + d[3..];
  }

  /** Four to six digits: the second rewrite and the hyphen step find nothing after the dot. */
  lemma CpfShort(d: string, v1: string)
    requires 4 <= |d| < 7 && AllDigits(d) && v1 == d[..3] + "." + d[3..]
    ensures HyphenBeforeCheckDigits(SplitFirstRun(v1, 3, ".")) == CpfMask(d)
  {
    assert v1[3] == '.';
    FirstRunSkip(v1, 4, 0, 3);
    assert FirstRun(v1, 4, 4) == None;
    EndMatchSkip(v1, 0, 3);
    assert EndMatch(v1, 4) == None;
  }

  /** From seven digits on, the second rewrite puts a `.` after the sixth digit. */
  lemma CpfSecondDot(d: string, v1: string) returns (v2: string)
    requires 7 <= |d| <= 11 && AllDigits(d) && v1 == d[..3] + "." + d[3..]
    ensures v2 == SplitFirstRun(v1, 3, ".") && v2 == d[..3] + "." + d[3..6] + "." + d[6..]
  {
    assert v1[3] == '.';
    FirstRunSkip(v1, 4, 0, 3);
    assert v1[4..8] == d[3..7];
    assert FirstRun(v1, 4, 4) == Some(4);
    v2 := v1[..7] + "." + v1[7..];
    assert v1[..7] == d[..3] + "." + d[3..6];
    assert v1[7..] == d[6..];
  }

  /** Seven digits or more: the hyphen goes before the last two digits when there are ten
      or eleven, and nowhere otherwise. */
  lemma CpfLong(d: string, v2: string)
    requires 7 <= |d| <= 11 && AllDigits(d) && v2 == d[..3] + "." + d[3..6] + "." + d[6..]
    ensures HyphenBeforeCheckDigits(v2) == CpfMask(d)
  {
    assert v2[7] == '.';
    EndMatchSkip(v2, 0, 7);
    assert v2[8..] == d[6..];
    if |d| >= 10 {
      assert EndMatch(v2, 8) == Some(8);
      assert v2[..11] == d[..3] + "." + d[3..6] + "." + d[6..9];
      assert v2[11..] == d[9..];
    } else {
      assert EndMatch(v2, 8) == None;
    }
  }

  /** The source's rewrites produce exactly the written-out mask of the first eleven
      digits of the input. */
  lemma FormatarCpfIsMask(value: string)
    ensures FormatarCpf(value) == CpfMask(Truncate11(StripNonDigits(value)))
  {
    CpfRewritesIsMask(Truncate11(StripNonDigits(value)));
  }

  lemma CpfMaskDigits(d: string)
    requires |d| <= 11 && AllDigits(d)
    ensures StripNonDigits(CpfMask(d)) == d
    ensures forall i :: 0 <= i < |CpfMask(d)| ==> IsDigit(CpfMask(d)[i]) || CpfMask(d)[i] in ".-"
  {
    CpfMaskAlphabet(d);
    var n := |d|;
    assert StripNonDigits(".") == [];
    if n <= 3 {
      StripDigits(d);
    } else if n <= 6 {
      StripDigits(d[..3]);
      StripAppendSeparated(d[..3], ".", d[3..]);
      assert d[..3] + d[3..] == d;
    } else {
      var two := d[..3] + "." + d[3..6];
      StripDigits(d[..3]);
      StripAppendSeparated(d[..3], ".", d[3..6]);
      if n <= 9 {
        StripAppendSeparated(two, ".", d[6..]);
        assert d[..3] + d[3..6] + d[6..] == d;
      } else {
        CpfCheckDigits(d, two);
      }
    }
  }

  lemma CpfMaskAlphabet(d: string)
    requires |d| <= 11 && AllDigits(d)
    ensures forall i :: 0 <= i < |CpfMask(d)| ==> IsDigit(CpfMask(d)[i]) || CpfMask(d)[i] in ".-"
  {
  }

  lemma CpfCheckDigits(d: string, two: string)
    requires 10 <= |d| <= 11 && AllDigits(d)
    requires two == d[..3] + "." + d[3..6] && StripNonDigits(two) == d[..6]
    ensures StripNonDigits(CpfMask(d)) == d
  {
    var three := two + "." + d[6..9];
    assert StripNonDigits(".") == [];
    StripAppendSeparated(two, ".", d[6..9]);
    assert d[..6] + d[6..9] == d[..9];
    CpfHyphenDigits(d, three);
  }

  lemma CpfHyphenDigits(d: string, three: string)
    requires 10 <= |d| <= 11 && AllDigits(d)
    requires three == d[..3] + "." + d[3..6] + "." + d[6..9] && StripNonDigits(three) == d[..9]
    ensures StripNonDigits(CpfMask(d)) == d
  {
    assert StripNonDigits("-") == [];
    StripAppendSeparated(three, "-", d[9..]);
    assert CpfMask(d) == three + "-" + d[9..];
    assert d[..9] + d[9..] == d;
  }

  /** The digits of the masked CPF are the first eleven digits of the input, and the mask
      adds nothing but `.` and `-`. */
  lemma FormatarCpfDigits(value: string)
    ensures var r := FormatarCpf(value);
      && StripNonDigits(r) == Truncate11(StripNonDigits(value))
      && forall i :: 0 <= i < |r| ==> IsDigit(r[i]) || r[i] == '.' || r[i] == '-'
  {
    FormatarCpfIsMask(value);
    CpfMaskDigits(Truncate11(StripNonDigits(value)));
  }

  lemma CpfMaskPunctuation(d: string)
    requires |d| <= 11 && AllDigits(d)
    ensures var n := |d|; var r := CpfMask(d);
      && |r| <= 14
      && (n >= 4 <==> |r| > 3 && r[3] == '.')
      && (n >= 7 <==> |r| > 7 && r[7] == '.')
      && (n >= 10 <==> |r| > 11 && r[11] == '-')
      && (n == 11 ==> |r| == 14)
  {
    var r := CpfMask(d);
    if |d| <= 3 {
    } else if |d| <= 6 {
      assert r[3] == '.';
    } else if |d| <= 9 {
      assert r[3] == '.' && r[7] == '.';
    } else {
      assert r[3] == '.' && r[7] == '.' && r[11] == '-';
    }
  }

  /** Where the punctuation of a masked CPF goes, for `n` digits kept from the input: a `.`
      after the third digit iff n >= 4, a `.` after the sixth iff n >= 7, a `-` after the
      ninth iff n >= 10; eleven digits give the fourteen characters `DDD.DDD.DDD-DD`. */
  lemma FormatarCpfPunctuation(value: string)
    ensures var n := |Truncate11(StripNonDigits(value))|; var r := FormatarCpf(value);
      && |r| <= 14
      && (n >= 4 <==> |r| > 3 && r[3] == '.')
      && (n >= 7 <==> |r| > 7 && r[7] == '.')
      && (n >= 10 <==> |r| > 11 && r[11] == '-')
      && (n == 11 ==> |r| == 14)
  {
    FormatarCpfIsMask(value);
    CpfMaskPunctuation(Truncate11(StripNonDigits(value)));
  }

  /** Masking an already masked CPF changes nothing, so the mask can be reapplied on every
      keystroke. */
  lemma FormatarCpfIdempotent(value: string)
    ensures FormatarCpf(FormatarCpf(value)) == FormatarCpf(value)
  {
    var r := FormatarCpf(value);
    FormatarCpfDigits(value);
    FormatarCpfIsMask(r);
    FormatarCpfIsMask(value);
  }

  // ---------------------------------------------------------------------------
  // The phone mask

  /** When the text after the area-code step is at most nine characters long, the
      `(\d{4})(\d)` rewrite of the source never finds a match. */
  lemma FourDigitBranchNeverMatches(d: string)
    requires |d| <= 11 && AllDigits(d)
    ensures var v1 := AreaCode(d); |v1| <= 9 ==> FirstRun(v1, 5, 0) == None
  {
    var v1 := AreaCode(d);
    if |d| >= 3 {
      assert v1 == "(" + d[..2] + ") " + d[2..];
      assert v1[4] == ' ';
      FirstRunSkip(v1, 5, 0, 4);
    }
  }

  /** On a string of at most eleven digits, the rewrites of the source produce exactly the
      written-out phone mask. */
  lemma TelefoneRewritesIsMask(d: string)
    requires |d| <= 11 && AllDigits(d)
    ensures TelefoneRewrites(d) == PhoneMask(d)
  {
    FourDigitBranchNeverMatches(d);
    if |d| == 7 {
      PhoneSevenDigits(d);
    } else if |d| >= 8 {
      PhoneEightDigitsOrMore(d);
    }
  }

  /** Seven digits: the area-code step gives ten characters, with no run of six digits. */
  lemma PhoneSevenDigits(d: string)
    requires |d| == 7 && AllDigits(d)
    ensures TelefoneRewrites(d) == PhoneMask(d)
  {
    var v1 := AreaCode(d);
    assert v1 == "(" + d[..2] + ") " + d[2..];
    assert |v1| == 10 && v1[4] == ' ';
    FirstRunSkip(v1, 6, 0, 4);
    assert FirstRun(v1, 6, 5) == None;
  }

  /** Eight digits or more: the six-digit run starts right after the area code, so the
      hyphen lands after the fifth local digit. */
  lemma PhoneEightDigitsOrMore(d: string)
    requires 8 <= |d| <= 11 && AllDigits(d)
    ensures TelefoneRewrites(d) == PhoneMask(d)
  {
    var v1 := AreaCode(d);
    assert v1 == "(" + d[..2] + ") " + d[2..];
    assert |v1| > 9 && v1[4] == ' ';
    FirstRunSkip(v1, 6, 0, 4);
    assert v1[5..11] == d[2..8];
    assert FirstRun(v1, 6, 5) == Some(5);
    assert SplitFirstRun(v1, 5, "-") == v1[..10] + "-" + v1[10..];
    assert v1[..10] == "(" + d[..2] + ") " + d[2..7];
    assert v1[10..] == d[7..];
  }

  /** The source's rewrites produce exactly the written-out phone mask of the first eleven
      digits of the input. */
  lemma FormatarTelefoneIsMask(value: string)
    ensures FormatarTelefone(value) == PhoneMask(Truncate11(StripNonDigits(value)))
  {
    TelefoneRewritesIsMask(Truncate11(StripNonDigits(value)));
  }

  lemma PhoneMaskDigits(d: string)
    requires |d| <= 11 && AllDigits(d)
    ensures StripNonDigits(PhoneMask(d)) == d
  {
    if |d| <= 2 {
      StripDigits(d);
    } else {
      var area := AreaPrefixDigits(d);
      if |d| <= 7 {
        assert StripNonDigits(") ") == [];
        StripAppendSeparated(area, ") ", d[2..]);
        assert d[..2] + d[2..] == d;
      } else {
        PhoneLongDigits(d, area);
      }
    }
  }

  lemma AreaPrefixDigits(d: string) returns (area: string)
    requires 3 <= |d| <= 11 && AllDigits(d)
    ensures area == "(" + d[..2] && StripNonDigits(area) == d[..2]
  {
    area := "(" + d[..2];
    assert StripNonDigits("(") == [];
    StripDigits(d[..2]);
    StripConcat("(", d[..2]);
  }

  lemma PhoneLongDigits(d: string, area: string)
    requires 8 <= |d| <= 11 && AllDigits(d)
    requires area == "(" + d[..2] && StripNonDigits(area) == d[..2]
    ensures StripNonDigits(PhoneMask(d)) == d
  {
    var local := area + ") " + d[2..7];
    assert StripNonDigits(") ") == [] && StripNonDigits("-") == [];
    StripAppendSeparated(area, ") ", d[2..7]);
    StripAppendSeparated(local, "-", d[7..]);
    assert PhoneMask(d) == local + "-" + d[7..];
    assert d[..2] + d[2..7] + d[7..] == d;
  }

  /** The digits of the masked phone number are the first eleven digits of the input. */
  lemma FormatarTelefoneDigits(value: string)
    ensures StripNonDigits(FormatarTelefone(value)) == Truncate11(StripNonDigits(value))
  {
    FormatarTelefoneIsMask(value);
    PhoneMaskDigits(Truncate11(StripNonDigits(value)));
  }

  lemma PhoneMaskPunctuation(d: string)
    requires |d| <= 11
    ensures var n := |d|; var r := PhoneMask(d);
      && |r| <= 15
      && (n >= 3 ==> |r| >= 5 && r[..5] == "(" + d[..2] + ") ")
      && (n >= 8 <==> |r| > 10 && r[10] == '-')
      && (n == 11 ==> |r| == 15)
      && (n == 10 ==> |r| == 14)
  {
    var r := PhoneMask(d);
    if |d| > 7 {
      assert r[10] == '-';
    }
  }

  /** Punctuation of a masked phone number with `n` digits kept from the input: from three
      digits on it starts with the area code `(DD) `; a `-` follows the fifth local digit iff
      n >= 8; eleven digits give the fifteen characters `(DD) DDDDD-DDDD`, ten give
      `(DD) DDDDD-DDD`. */
  lemma FormatarTelefonePunctuation(value: string)
    ensures var d := Truncate11(StripNonDigits(value)); var n := |d|; var r := FormatarTelefone(value);
      && |r| <= 15
      && (n >= 3 ==> |r| >= 5 && r[..5] == "(" + d[..2] + ") ")
      && (n >= 8 <==> |r| > 10 && r[10] == '-')
      && (n == 11 ==> |r| == 15)
      && (n == 10 ==> |r| == 14)
  {
    FormatarTelefoneIsMask(value);
    PhoneMaskPunctuation(Truncate11(StripNonDigits(value)));
  }

  /** Masking an already masked phone number changes nothing. */
  lemma FormatarTelefoneIdempotent(value: string)
    ensures FormatarTelefone(FormatarTelefone(value)) == FormatarTelefone(value)
  {
    var r := FormatarTelefone(value);
    FormatarTelefoneDigits(value);
    FormatarTelefoneIsMask(r);
    FormatarTelefoneIsMask(value);
  }
}
