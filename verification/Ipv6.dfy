/** The IPv6 printer, and the expansion of its text by section 2.2 of RFC 4291. */
module Ipv6 {
  import opened Tasks

  type Group = g: int | 0 <= g < 0x1_0000

  // ----- hexadecimal fields

  predicate IsHexDigit(c: char) { '0' <= c <= '9' || 'a' <= c <= 'f' }

  function Digit(d: int): (c: char)
    requires 0 <= d < 16
    ensures IsHexDigit(c) && DigitValue(c) == d
  {
    if d < 10 then '0' + d as char else 'a' + (d - 10) as char
  }

  function DigitValue(c: char): (d: int)
    requires IsHexDigit(c)
    ensures 0 <= d < 16
  {
    if '0' <= c <= '9' then (c - '0') as int else (c - 'a') as int + 10
  }

  lemma DigitsAreLowerCase(d: int)
    requires 0 <= d < 16
    ensures Digit(d) == "0123456789abcdef"[d]
  {
  }

  /** std::hex: lower case, no leading zeros. */
  function Hex(n: nat): (s: string)
    ensures |s| >= 1 && forall i :: 0 <= i < |s| ==> IsHexDigit(s[i])
  {
    if n < 16 then [Digit(n)] else Hex(n / 16) + [Digit(n % 16)]
  }

  predicate AllHex(s: string) { forall i :: 0 <= i < |s| ==> IsHexDigit(s[i]) }

  function HexValue(s: string): nat
    requires AllHex(s)
  {
    if s == [] then 0 else 16 * HexValue(s[..|s| - 1]) + DigitValue(s[|s| - 1])
  }

  lemma {:induction false} HexRoundTrip(n: nat)
    ensures AllHex(Hex(n)) && HexValue(Hex(n)) == n
  {
    if n >= 16 {
      HexRoundTrip(n / 16);
      assert Hex(n)[..|Hex(n)| - 1] == Hex(n / 16);
    } else {
      assert Hex(n)[..0] == [];
    }
  }

  function Pow16(k: nat): nat { if k == 0 then 1 else 16 * Pow16(k - 1) }

  lemma {:induction false} HexLength(n: nat, k: nat)
    requires k >= 1 && n < Pow16(k)
    ensures |Hex(n)| <= k
    decreases k
  {
    if n >= 16 && k > 1 {
      HexLength(n / 16, k - 1);
    }
  }

  // ----- the printer

  /** Groups separated by colons. */
  function Join(gs: seq<Group>): string
  {
    if gs == [] then ""
    else if |gs| == 1 then Hex(gs[0])
    else Join(gs[..|gs| - 1]) + ":" + Hex(gs[|gs| - 1])
  }

  /** The first zero group. */
  function FirstZero(gs: seq<Group>, i: nat): (z: nat)
    requires i <= |gs|
    ensures i <= z <= |gs| && (forall j :: i <= j < z ==> gs[j] != 0) && (z < |gs| ==> gs[z] == 0)
    decreases |gs| - i
  {
    if i < |gs| && gs[i] != 0 then FirstZero(gs, i + 1) else i
  }

  /** The end of a run of zero groups. */
  function RunEnd(gs: seq<Group>, i: nat): (e: nat)
    requires i <= |gs|
    ensures i <= e <= |gs| && (forall j :: i <= j < e ==> gs[j] == 0) && (e < |gs| ==> gs[e] != 0)
    decreases |gs| - i
  {
    if i < |gs| && gs[i] == 0 then RunEnd(gs, i + 1) else i
  }

  /** The text between the brackets: the first run of zeros, if any, becomes "::". */
  function Text(gs: seq<Group>): string
  {
    var z := FirstZero(gs, 0);
    if z == |gs| then Join(gs) else Join(gs[..z]) + "::" + Join(gs[RunEnd(gs, z)..])
  }

  lemma JoinSnoc(gs: seq<Group>, i: nat, j: nat)
    requires i <= j < |gs|
    ensures Join(gs[i..j + 1]) == if i == j then Hex(gs[j]) else Join(gs[i..j]) + ":" + Hex(gs[j])
  {
    var s := gs[i..j + 1];
    assert s[..|s| - 1] == gs[i..j] && s[|s| - 1] == gs[j];
  }

  /** What has been printed when the loop reaches group `i`. */
  ghost predicate Printed(gs: seq<Group>, i: nat, used: bool, os: string)
    requires i <= |gs|
  {
    var z := FirstZero(gs, 0);
    var e := RunEnd(gs, z);
    if i <= z then !used && os == Join(gs[..i])
    else if i <= e then !used && os == Join(gs[..z])
    else used && os == Join(gs[..z]) + "::" + Join(gs[e..i])
  }

  /** One round of the loop: whether "::" has been used and what has been printed, after group `i`. */
  function Round(gs: seq<Group>, i: nat, used: bool, os: string): (bool, string)
    requires i < |gs|
  {
    if gs[i] == 0 && !used then (used, os)
    else
      var gap := i != 0 && gs[i - 1] == 0 && !used;
      (used || gap, if gap then os + "::" + Hex(gs[i]) else if i != 0 then os + ":" + Hex(gs[i]) else os + Hex(gs[i]))
  }

  lemma Assoc(a: string, b: string, c: string, d: string)
    ensures a + b + c + d == a + (b + c + d)
  {
  }

  lemma TwoColons(a: string)
    ensures a + ":" + ":" == a + "::"
  {
  }

  /** Before the first zero. */
  lemma RoundBefore(gs: seq<Group>, i: nat, os: string)
    requires i < |gs| && i < FirstZero(gs, 0) && os == Join(gs[..i])
    ensures Round(gs, i, false, os) == (false, Join(gs[..i + 1]))
  {
    JoinSnoc(gs, 0, i);
    assert gs[0..i] == gs[..i] && gs[0..i + 1] == gs[..i + 1];
    if i == 0 {
      assert gs[..0] == [] && "" + Hex(gs[i]) == Hex(gs[i]);
    }
  }

  /** After the run, with the gap still to print or printed. */
  lemma RoundAfter(gs: seq<Group>, i: nat, e: nat, used: bool, left: string, os: string)
    requires 0 < e <= i < |gs| && gs[e - 1] == 0 && gs[e] != 0 && used == (i > e)
    requires os == if used then left + "::" + Join(gs[e..i]) else left
    ensures Round(gs, i, used, os) == (true, left + "::" + Join(gs[e..i + 1]))
  {
    JoinSnoc(gs, e, i);
    Assoc(left + "::", Join(gs[e..i]), ":", Hex(gs[i]));
  }

  lemma RoundKeeps(gs: seq<Group>, i: nat, used: bool, os: string)
    requires i < |gs| && Printed(gs, i, used, os)
    ensures var r := Round(gs, i, used, os);
            Printed(gs, i + 1, r.0, r.1)
  {
    var z := FirstZero(gs, 0);
    var e := RunEnd(gs, z);
    if i < z {
      RoundBefore(gs, i, os);
    } else if i >= e {
      RoundAfter(gs, i, e, used, Join(gs[..z]), os);
    }
  }

  /** IPv6Address::insert, the text between the brackets. */
  method Insert(gs: seq<Group>) returns (os: string)
    requires |gs| == 8
    ensures os == Text(gs)
  {
    os := "";
    var used := false;
    assert gs[..0] == [];
    for i := 0 to 8
      invariant Printed(gs, i, used, os)
    {
      RoundKeeps(gs, i, used, os);
      if gs[i] == 0 && !used {
        continue;
      }
      TwoColons(os);
      if i != 0 && gs[i - 1] == 0 && !used {
        os := os + ":";
        used := true;
      }
      if i != 0 {
        os := os + ":";
      }
      os := os + Hex(gs[i]);
    }
    assert gs[..8] == gs;
    if !used && gs[7] == 0 {
      os := os + "::";
    }
  }

  // ----- the expansion

  /** The position of the first colon. */
  function Colon(s: string): (k: nat)
    ensures k <= |s| && (forall i :: 0 <= i < k ==> s[i] != ':') && (k < |s| ==> s[k] == ':')
  {
    if s == "" || s[0] == ':' then 0 else 1 + Colon(s[1..])
  }

  predicate IsGap(s: string, k: nat) { k + 1 < |s| && s[k] == ':' && s[k + 1] == ':' }

  /** The position of the first "::". */
  function Gap(s: string): (k: nat)
    ensures k <= |s| && (forall i :: 0 <= i < k ==> !IsGap(s, i)) && (k < |s| ==> IsGap(s, k))
  {
    if s == "" || IsGap(s, 0) then 0
    else
      var k := Gap(s[1..]);
      assert forall i :: 0 < i < |s| ==> (IsGap(s, i) <==> IsGap(s[1..], i - 1));
      1 + k
  }

  /** One to four hexadecimal digits. */
  function Field(s: string): Option<Group>
  {
    if 1 <= |s| <= 4 && AllHex(s) && HexValue(s) < 0x1_0000 then Some(HexValue(s)) else None
  }

  /** Fields separated by single colons; at least one. */
  function Fields(s: string): Option<seq<Group>>
    decreases |s|
  {
    var k := Colon(s);
    match Field(s[..k])
    case None => None
    case Some(g) =>
      if k == |s| then Some([g])
      else
        match Fields(s[k + 1..])
        case None => None
        case Some(gs) => Some([g] + gs)
  }

  function Side(s: string): Option<seq<Group>> { if s == "" then Some([]) else Fields(s) }

  function Zeros(n: nat): (gs: seq<Group>)
    ensures |gs| == n && forall i :: 0 <= i < n ==> gs[i] == 0
  {
    seq(n, _ => 0)
  }

  /** Section 2.2 of RFC 4291: eight fields, or fewer around one "::" that stands for the missing zeros. */
  function Expand(s: string): Option<seq<Group>>
  {
    var k := Gap(s);
    if k == |s| then
      match Fields(s)
      case Some(gs) => if |gs| == 8 then Some(gs) else None
      case None => None
    else Fill(Side(s[..k]), Side(s[k + 2..]))
  }

  /** The two sides of a "::", filled up with zeros. */
  function Fill(x: Option<seq<Group>>, y: Option<seq<Group>>): Option<seq<Group>>
  {
    if x.Some? && y.Some? && |x.value| + |y.value| < 8
    then Some(x.value + Zeros(8 - |x.value| - |y.value|) + y.value)
    else None
  }

  // ----- printing and expanding

  lemma {:induction false} ColonOf(x: string, y: string)
    requires AllHex(x)
    ensures Colon(x + ":" + y) == |x| && Colon(x) == |x|
  {
    if x != "" {
      assert (x + ":" + y)[1..] == x[1..] + ":" + y;
      assert x[0] != ':';
      ColonOf(x[1..], y);
    }
  }

  lemma FieldOfHex(g: Group)
    ensures Field(Hex(g)) == Some(g)
  {
    HexRoundTrip(g);
    assert Pow16(4) == 0x1_0000;
    HexLength(g, 4);
  }

  /** Join from the front. */
  lemma {:induction false} JoinCons(gs: seq<Group>)
    requires |gs| >= 2
    ensures Join(gs) == Hex(gs[0]) + ":" + Join(gs[1..])
    decreases |gs|
  {
    if |gs| > 2 {
      var init, tail := gs[..|gs| - 1], gs[1..];
      JoinCons(init);
      assert init[1..] == tail[..|tail| - 1] && tail[|tail| - 1] == gs[|gs| - 1];
      Assoc(Hex(gs[0]) + ":", Join(init[1..]), ":", Hex(gs[|gs| - 1]));
    } else {
      assert gs[..1] == [gs[0]] && gs[1..] == [gs[1]];
    }
  }

  lemma OneField(h: string, g: Group)
    requires AllHex(h) && Field(h) == Some(g)
    ensures Fields(h) == Some([g])
  {
    ColonOf(h, "");
    assert h[..|h|] == h;
  }

  lemma MoreFields(h: string, rest: string, g: Group, gs: seq<Group>)
    requires AllHex(h) && Field(h) == Some(g) && Fields(rest) == Some(gs)
    ensures Fields(h + ":" + rest) == Some([g] + gs)
  {
    var s := h + ":" + rest;
    ColonOf(h, rest);
    assert s[..|h|] == h && s[|h| + 1..] == rest;
  }

  lemma FieldsCons(h: string, rest: string, gs: seq<Group>)
    requires gs != [] && AllHex(h) && Field(h) == Some(gs[0]) && Fields(rest) == Some(gs[1..])
    ensures Fields(h + ":" + rest) == Some(gs)
  {
    MoreFields(h, rest, gs[0], gs[1..]);
    assert gs == [gs[0]] + gs[1..];
  }

  lemma FieldsStep(gs: seq<Group>, s: string, rest: string)
    requires |gs| >= 2 && s == Hex(gs[0]) + ":" + rest && Fields(rest) == Some(gs[1..])
    ensures Fields(s) == Some(gs)
  {
    FieldOfHex(gs[0]);
    HexRoundTrip(gs[0]);
    FieldsCons(Hex(gs[0]), rest, gs);
  }

  lemma {:induction false} FieldsOfJoin(gs: seq<Group>)
    requires gs != []
    ensures Fields(Join(gs)) == Some(gs)
    decreases |gs|
  {
    if |gs| == 1 {
      FieldOfHex(gs[0]);
      HexRoundTrip(gs[0]);
      OneField(Hex(gs[0]), gs[0]);
      assert gs == [gs[0]];
    } else {
      FieldsOfJoin(gs[1..]);
      JoinCons(gs);
      FieldsStep(gs, Join(gs), Join(gs[1..]));
    }
  }

  lemma JoinNonEmpty(gs: seq<Group>)
    ensures Join(gs) != "" <==> gs != []
  {
  }

  /** No two colons meet in a Join, and it neither begins nor ends with one. */
  lemma {:induction false} JoinHasNoGap(gs: seq<Group>)
    ensures forall k :: 0 <= k ==> !IsGap(Join(gs), k)
    ensures Join(gs) != "" ==> Join(gs)[0] != ':' && Join(gs)[|Join(gs)| - 1] != ':'
    decreases |gs|
  {
    if |gs| >= 2 {
      var x, h := Join(gs[..|gs| - 1]), Hex(gs[|gs| - 1]);
      JoinHasNoGap(gs[..|gs| - 1]);
      JoinNonEmpty(gs[..|gs| - 1]);
      forall k | 0 <= k ensures !IsGap(x + ":" + h, k) {
        if k + 1 < |x| {
          assert !IsGap(x, k);
        }
      }
    }
  }

  /** Around a "::" there is no other gap. */
  lemma OnlyGap(x: string, y: string, k: nat)
    requires (forall i :: 0 <= i ==> !IsGap(x, i)) && (forall i :: 0 <= i ==> !IsGap(y, i))
    requires x != "" ==> x[|x| - 1] != ':'
    requires y != "" ==> y[0] != ':'
    ensures IsGap(x + "::" + y, k) <==> k == |x|
  {
    var s := x + "::" + y;
    if k + 1 < |x| {
      assert !IsGap(x, k);
    } else if k >= |x| + 2 {
      assert !IsGap(y, k - |x| - 2);
    }
  }

  /** The text has at most one "::". */
  lemma AtMostOneGap(gs: seq<Group>, i: nat, j: nat)
    requires IsGap(Text(gs), i) && IsGap(Text(gs), j)
    ensures i == j
  {
    var z := FirstZero(gs, 0);
    JoinHasNoGap(gs);
    if z < |gs| {
      var x, y := Join(gs[..z]), Join(gs[RunEnd(gs, z)..]);
      JoinHasNoGap(gs[..z]);
      JoinHasNoGap(gs[RunEnd(gs, z)..]);
      OnlyGap(x, y, i);
      OnlyGap(x, y, j);
    }
  }

  lemma SideOfJoin(gs: seq<Group>)
    ensures Side(Join(gs)) == Some(gs)
  {
    JoinNonEmpty(gs);
    if gs != [] {
      FieldsOfJoin(gs);
    }
  }

  lemma GapBetween(xs: seq<Group>, ys: seq<Group>)
    ensures Gap(Join(xs) + "::" + Join(ys)) == |Join(xs)|
  {
    var x, y := Join(xs), Join(ys);
    JoinHasNoGap(xs);
    JoinHasNoGap(ys);
    OnlyGap(x, y, |x|);
    OnlyGap(x, y, Gap(x + "::" + y));
  }

  /** Expanding a text with a gap. */
  lemma ExpandAround(xs: seq<Group>, ys: seq<Group>)
    requires |xs| + |ys| < 8
    ensures Expand(Join(xs) + "::" + Join(ys)) == Fill(Some(xs), Some(ys))
  {
    GapBetween(xs, ys);
    Around(Join(xs), Join(ys));
    SideOfJoin(xs);
    SideOfJoin(ys);
  }

  lemma Around(x: string, y: string)
    ensures (x + "::" + y)[..|x|] == x && (x + "::" + y)[|x| + 2..] == y
  {
  }

  lemma ExpandJoin(gs: seq<Group>)
    requires |gs| == 8
    ensures Expand(Join(gs)) == Some(gs)
  {
    JoinHasNoGap(gs);
    FieldsOfJoin(gs);
    assert !IsGap(Join(gs), Gap(Join(gs)));
  }

  /** Expanding the printed text gives back the eight groups. */
  lemma ExpandText(gs: seq<Group>)
    requires |gs| == 8
    ensures Expand(Text(gs)) == Some(gs)
  {
    var z := FirstZero(gs, 0);
    if z == 8 {
      ExpandJoin(gs);
    } else {
      ExpandRun(gs, z, RunEnd(gs, z));
    }
  }

  lemma ExpandRun(gs: seq<Group>, z: nat, e: nat)
    requires |gs| == 8 && z < e <= 8 && forall j :: z <= j < e ==> gs[j] == 0
    ensures Expand(Join(gs[..z]) + "::" + Join(gs[e..])) == Some(gs)
  {
    ExpandAround(gs[..z], gs[e..]);
    ZeroRun(gs, z, e);
  }

  lemma ZeroRun(gs: seq<Group>, z: nat, e: nat)
    requires z <= e <= |gs| && forall j :: z <= j < e ==> gs[j] == 0
    ensures gs[..z] + Zeros(e - z) + gs[e..] == gs
  {
  }

  /** So different addresses print differently. */
  lemma TextIsInjective(gs: seq<Group>, hs: seq<Group>)
    requires |gs| == 8 && |hs| == 8 && Text(gs) == Text(hs)
    ensures gs == hs
  {
    ExpandText(gs);
    ExpandText(hs);
  }

  // ----- which zeros are left out

  /** Without a zero group there is no "::" and all groups are printed. */
  lemma TextWithoutZero(gs: seq<Group>)
    requires gs != [] && forall i :: 0 <= i < |gs| ==> gs[i] != 0
    ensures var os := Text(gs);
            Gap(os) == |os| && Side(os) == Some(gs)
  {
    JoinHasNoGap(gs);
    SideOfJoin(gs);
    assert !IsGap(Join(gs), Gap(Join(gs)));
  }

  /** With one, "::" stands for exactly the first run of zero groups, from its first to its last: before it all
      groups before the run are printed, after it all groups after the run. */
  lemma TextLeavesOutFirstRun(gs: seq<Group>, z: nat, e: nat)
    requires z < e <= |gs| && (forall i :: 0 <= i < z ==> gs[i] != 0) && (forall i :: z <= i < e ==> gs[i] == 0)
    requires e == |gs| || gs[e] != 0
    ensures var os := Text(gs);
            && Gap(os) + 2 <= |os|
            && Side(os[..Gap(os)]) == Some(gs[..z]) && Side(os[Gap(os) + 2..]) == Some(gs[e..])
  {
    RunIsFirst(gs, z, e);
    GapBetween(gs[..z], gs[e..]);
    Around(Join(gs[..z]), Join(gs[e..]));
    SideOfJoin(gs[..z]);
    SideOfJoin(gs[e..]);
  }

  lemma RunIsFirst(gs: seq<Group>, z: nat, e: nat)
    requires z < e <= |gs| && (forall i :: 0 <= i < z ==> gs[i] != 0) && (forall i :: z <= i < e ==> gs[i] == 0)
    requires e == |gs| || gs[e] != 0
    ensures FirstZero(gs, 0) == z && RunEnd(gs, z) == e
  {
    var z', e' := FirstZero(gs, 0), RunEnd(gs, z);
    assert !(z' < z) && !(z < z');
    assert !(e' < e) && !(e < e');
  }

  // ----- no leading zeros

  /** A field that begins with the digit 0 at `i` ends there. */
  predicate PlainAt(s: string, i: nat)
  {
    i + 1 < |s| && s[i] == '0' && (i == 0 || s[i - 1] == ':') ==> s[i + 1] == ':'
  }

  lemma {:induction false} HexHasNoLeadingZero(n: nat)
    ensures |Hex(n)| > 1 ==> Hex(n)[0] != '0'
  {
    if n >= 16 {
      HexHasNoLeadingZero(n / 16);
      assert Hex(n)[0] == Hex(n / 16)[0];
    }
  }

  lemma HexIsPlain(n: nat, i: nat)
    ensures PlainAt(Hex(n), i)
  {
    HexHasNoLeadingZero(n);
  }

  /** Two plain texts with colons between them. */
  lemma PlainAround(x: string, colons: string, y: string, i: nat)
    requires colons == ":" || colons == "::"
    requires (forall k: nat :: PlainAt(x, k)) && (forall k: nat :: PlainAt(y, k))
    ensures PlainAt(x + colons + y, i)
  {
    var s, m := x + colons + y, |x| + |colons|;
    if i + 1 < |x| {
      assert PlainAt(x, i);
    } else if i >= m {
      assert PlainAt(y, i - m);
    }
  }

  lemma {:induction false} JoinIsPlain(gs: seq<Group>, i: nat)
    ensures PlainAt(Join(gs), i)
    decreases |gs|
  {
    if |gs| == 1 {
      HexIsPlain(gs[0], i);
    } else if |gs| > 1 {
      var init, last := gs[..|gs| - 1], gs[|gs| - 1];
      forall k: nat ensures PlainAt(Join(init), k) {
        JoinIsPlain(init, k);
      }
      forall k: nat ensures PlainAt(Hex(last), k) {
        HexIsPlain(last, k);
      }
      PlainAround(Join(init), ":", Hex(last), i);
    }
  }

  lemma PlainEverywhere(gs: seq<Group>)
    ensures forall k: nat :: PlainAt(Join(gs), k)
  {
    forall k: nat ensures PlainAt(Join(gs), k) {
      JoinIsPlain(gs, k);
    }
  }

  /** No field of the text has a leading zero. */
  lemma TextIsPlain(gs: seq<Group>, i: nat)
    requires i + 1 < |Text(gs)| && Text(gs)[i] == '0' && (i == 0 || Text(gs)[i - 1] == ':')
    ensures Text(gs)[i + 1] == ':'
  {
    var z := FirstZero(gs, 0);
    if z == |gs| {
      JoinIsPlain(gs, i);
    } else {
      var xs, ys := gs[..z], gs[RunEnd(gs, z)..];
      PlainEverywhere(xs);
      PlainEverywhere(ys);
      PlainAround(Join(xs), "::", Join(ys), i);
    }
    assert PlainAt(Text(gs), i);
  }
}
