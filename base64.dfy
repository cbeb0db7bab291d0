/** `base64Encode` (src/utils/base64.ts) works on the UTF-16 code units of a
    string, three per loop iteration, looking each 6-bit index up in a
    65-character table whose last entry is the pad character '='.
    `EncodeUnits` is what the loop computes for any code units; `Encode` is
    the encoding of section 4 of RFC 4648 over bytes, with its decoder. For
    code units below 256 the two agree, and the round trip holds. */
module Base64 {
  import opened Util

  /** A UTF-16 code unit, as `charCodeAt` returns it. */
  type CodeUnit = x: int | 0 <= x < 0x1_0000

  type Byte = x: int | 0 <= x < 256

  /** The source's lookup table, as written: the 64 letters, then '='. */
  const Table: string := "ABCDEFGHIJKLMNOPQRSTUVWXYZ" + "abcdefghijklmnopqrstuvwxyz" + "0123456789+/="

  /** The letter for the 6-bit value k, by the ranges of Table 1 of RFC 4648. */
  function Digit(k: nat): char
    requires k < 64
  {
    if k < 26 then ('A' as int + k) as char
    else if k < 52 then ('a' as int + (k - 26)) as char
    else if k < 62 then ('0' as int + (k - 52)) as char
    else if k == 62 then '+' else '/'
  }

  /** Entry k of the lookup table: the alphabet, then the pad character. */
  function Entry(k: int): char
  {
    if 0 <= k < 64 then Digit(k) else '='
  }

  function Chars(): string
  {
    seq(65, Entry)
  }

  lemma TableEntry(k: nat)
    requires k < 65
    ensures Table[k] == Chars()[k]
  {
    if k < 26 {
      assert Table[k] == "ABCDEFGHIJKLMNOPQRSTUVWXYZ"[k];
    } else if k < 52 {
      assert Table[k] == "abcdefghijklmnopqrstuvwxyz"[k - 26];
    } else {
      assert Table[k] == "0123456789+/="[k - 52];
    }
  }

  /** `Chars()` is the table the source writes out. */
  lemma CharsIsTable()
    ensures Chars() == Table
  {
    forall k | 0 <= k < 65 ensures Table[k] == Chars()[k] { TableEntry(k); }
  }

  predicate IsAlphabetChar(c: char)
  {
    ('A' <= c <= 'Z') || ('a' <= c <= 'z') || ('0' <= c <= '9') || c == '+' || c == '/'
  }

  /** Position of a character in the alphabet. */
  function Index(c: char): (r: Option<nat>)
    ensures r.Some? <==> IsAlphabetChar(c)
    ensures r.Some? ==> r.value < 64
  {
    if 'A' <= c <= 'Z' then Some(c as int - 'A' as int)
    else if 'a' <= c <= 'z' then Some(c as int - 'a' as int + 26)
    else if '0' <= c <= '9' then Some(c as int - '0' as int + 52)
    else if c == '+' then Some(62)
    else if c == '/' then Some(63)
    else None
  }

  lemma IndexDigit(k: nat)
    requires k < 64
    ensures IsAlphabetChar(Digit(k)) && Index(Digit(k)) == Some(k)
  {
  }

  // ---------------------------------------------------------------------
  // The loop as written, over code units

  /** The values the expression `chars[enc1] + chars[enc2] + …` meets:
      `undefined` (an index past the table), `NaN`, or a string. */
  datatype JsValue = Undefined | NaN | Str(s: string)

  /** `String(v)`, which `output += v` appends. */
  function ToText(v: JsValue): string
  {
    match v
    case Undefined => "undefined"
    case NaN => "NaN"
    case Str(s) => s
  }

  /** JavaScript's `+` on these values: concatenation of the texts when
      either side is a string, otherwise (`undefined` or `NaN` on both
      sides) `NaN`. */
  function Plus(a: JsValue, b: JsValue): (r: JsValue)
    ensures a.Str? || b.Str? ==> r == Str(ToText(a) + ToText(b))
    ensures !a.Str? && !b.Str? ==> r == NaN
  {
    if a.Str? || b.Str? then Str(ToText(a) + ToText(b)) else NaN
  }

  /** `chars[k]`: an index past the table reads as `undefined`. */
  function Sym(k: nat): JsValue
  {
    if k < |Chars()| then Str([Chars()[k]]) else Undefined
  }

  /** `a | b` on non-negative integers. */
  function Or(a: nat, b: nat): nat
    decreases a + b
  {
    if a == 0 then b
    else if b == 0 then a
    else 2 * Or(a / 2, b / 2) + (if a % 2 == 1 || b % 2 == 1 then 1 else 0)
  }

  function Pow2(k: nat): (p: nat)
    ensures p >= 1
  {
    if k == 0 then 1 else 2 * Pow2(k - 1)
  }

  /** Or-ing a multiple of 2^k with a number below 2^k adds them. */
  lemma {:induction false} OrDisjoint(a: nat, b: nat, k: nat)
    requires b < Pow2(k)
    ensures Or(a * Pow2(k), b) == a * Pow2(k) + b
    decreases k
  {
    if a != 0 && b != 0 {
      assert k > 0;
      var h := a * Pow2(k - 1);
      assert a * Pow2(k) == 2 * h;
      assert (2 * h) / 2 == h && (2 * h) % 2 == 0;
      OrDisjoint(a, b / 2, k - 1);
    }
  }

  /** One iteration of the loop: the text of the sum it appends, added up
      from the left as JavaScript does. `c2`/`c3` are absent once the input
      has run out (`NaN`, which the shifts and masks read as 0). */
  function EncodeGroup(c1: CodeUnit, c2: Option<CodeUnit>, c3: Option<CodeUnit>): string
  {
    var x2 := if c2.Some? then c2.value else 0;
    var x3 := if c3.Some? then c3.value else 0;
    var enc1 := c1 / 4;
    var enc2 := Or((c1 % 4) * 16, x2 / 16);
    var enc3 := Or((x2 % 16) * 4, x3 / 64);
    var enc4 := x3 % 64;
    var sum := if c2.None? then Plus(Plus(Sym(enc1), Sym(enc2)), Str("=="))
               else if c3.None? then Plus(Plus(Plus(Sym(enc1), Sym(enc2)), Sym(enc3)), Str("="))
               else Plus(Plus(Plus(Sym(enc1), Sym(enc2)), Sym(enc3)), Sym(enc4));
    ToText(sum)
  }

  /** What the loop appends, group by group, for any code units. */
  function EncodeUnits(s: seq<CodeUnit>): string
    decreases |s|
  {
    if |s| == 0 then ""
    else if |s| == 1 then EncodeGroup(s[0], None, None)
    else if |s| == 2 then EncodeGroup(s[0], Some(s[1]), None)
    else EncodeGroup(s[0], Some(s[1]), Some(s[2])) + EncodeUnits(s[3..])
  }

  /** `base64Encode`: the while loop advancing `i` by up to three. */
  method Base64Encode(str: seq<CodeUnit>) returns (output: string)
    ensures output == EncodeUnits(str)
  {
    output := "";
    var i := 0;
    while i < |str|
      invariant 0 <= i <= |str|
      invariant output + EncodeUnits(str[i..]) == EncodeUnits(str)
    {
      ghost var start := i;
      var chr1 := str[i];
      i := i + 1;
      var chr2: Option<CodeUnit> := None;
      if i < |str| {
        chr2 := Some(str[i]);
        i := i + 1;
      }
      var chr3: Option<CodeUnit> := None;
      if i < |str| {
        chr3 := Some(str[i]);
        i := i + 1;
      }
      var group := EncodeGroup(chr1, chr2, chr3);
      LoopStep(str, start, i, chr2, chr3);
      ghost var before := output;
      output := output + group;
      assert output + EncodeUnits(str[i..]) == before + (group + EncodeUnits(str[i..]));
    }
    assert str[|str|..] == [];
  }

  /** The first iteration over s appends its group, and the loop goes on
      with what follows the group. */
  lemma EncodeUnitsFirst(s: seq<CodeUnit>)
    requires |s| >= 1
    ensures var n := if |s| >= 3 then 3 else |s|;
            EncodeUnits(s) == EncodeGroup(s[0], if |s| >= 2 then Some(s[1]) else None, if |s| >= 3 then Some(s[2]) else None)
                              + EncodeUnits(s[n..])
  {
    if |s| < 3 {
      assert s[|s|..] == [];
    }
  }

  /** One iteration of the loop, from `start` to `i`, in the terms the loop
      reads its code units in. */
  lemma LoopStep(str: seq<CodeUnit>, start: nat, i: nat, chr2: Option<CodeUnit>, chr3: Option<CodeUnit>)
    requires start < |str| && i == (if |str| - start >= 3 then start + 3 else |str|)
    requires chr2 == (if start + 1 < |str| then Some(str[start + 1]) else None)
    requires chr3 == (if start + 2 < |str| then Some(str[start + 2]) else None)
    ensures EncodeUnits(str[start..]) == EncodeGroup(str[start], chr2, chr3) + EncodeUnits(str[i..])
  {
    EncodeUnitsFirst(str[start..]);
    assert str[start..][i - start..] == str[i..];
  }

  // ---------------------------------------------------------------------
  // Section 4 of RFC 4648, over bytes

  predicate IsSextets(ds: seq<nat>)
  {
    forall i :: 0 <= i < |ds| ==> ds[i] < 64
  }

  /** The 24 bits of three bytes as four 6-bit values, most significant first. */
  function Group(b0: Byte, b1: Byte, b2: Byte): (ds: seq<nat>)
    ensures |ds| == 4 && IsSextets(ds)
  {
    [b0 / 4, (b0 % 4) * 16 + b1 / 16, (b1 % 16) * 4 + b2 / 64, b2 % 64]
  }

  /** Number of 6-bit values a final group of r bytes yields. */
  function TailLength(r: nat): nat
  {
    if r == 1 then 2 else if r == 2 then 3 else 0
  }

  /** The 6-bit values of a byte string; a final one or two bytes are padded
      with zero bits to two or three values. */
  function Sextets(bs: seq<Byte>): (ds: seq<nat>)
    ensures IsSextets(ds)
    ensures |ds| == 4 * (|bs| / 3) + TailLength(|bs| % 3)
    decreases |bs|
  {
    if |bs| == 0 then []
    else if |bs| == 1 then Group(bs[0], 0, 0)[..2]
    else if |bs| == 2 then Group(bs[0], bs[1], 0)[..3]
    else Group(bs[0], bs[1], bs[2]) + Sextets(bs[3..])
  }

  /** Each value written as its letter. */
  function Render(ds: seq<nat>): (t: string)
    requires IsSextets(ds)
    ensures |t| == |ds|
    ensures forall i :: 0 <= i < |ds| ==> t[i] == Digit(ds[i])
  {
    seq(|ds|, i requires 0 <= i < |ds| => Digit(ds[i]))
  }

  /** The padding after the last group of n bytes. */
  function Pad(n: nat): string
  {
    if n % 3 == 1 then "==" else if n % 3 == 2 then "=" else ""
  }

  function Encode(bs: seq<Byte>): string
  {
    Render(Sextets(bs)) + Pad(|bs|)
  }

  /** The alphabet positions of the characters of s; None if one is not in the alphabet. */
  function Read(s: string): (r: Option<seq<nat>>)
    ensures r.Some? ==> IsSextets(r.value) && |r.value| == |s|
  {
    if s == [] then Some([])
    else
      var d, rest := Index(s[0]), Read(s[1..]);
      if d.Some? && rest.Some? then Some([d.value] + rest.value) else None
  }

  /** Groups of four values back to three bytes; a final two or three values
      give one or two bytes; a single final value is not a valid encoding. */
  function FromSextets(ds: seq<nat>): Option<seq<Byte>>
    requires IsSextets(ds)
    decreases |ds|
  {
    if |ds| == 0 then Some([])
    else if |ds| == 1 then None
    else if |ds| == 2 then Some([ds[0] * 4 + ds[1] / 16])
    else if |ds| == 3 then Some([ds[0] * 4 + ds[1] / 16, (ds[1] % 16) * 16 + ds[2] / 4])
    else
      match FromSextets(ds[4..])
      case None => None
      case Some(rest) => Some([ds[0] * 4 + ds[1] / 16, (ds[1] % 16) * 16 + ds[2] / 4, (ds[2] % 4) * 64 + ds[3]] + rest)
  }

  /** How many '=' end the string (at most two). */
  function PadLength(t: string): (p: nat)
    ensures p <= 2 && p <= |t|
  {
    if |t| >= 2 && t[|t| - 1] == '=' && t[|t| - 2] == '=' then 2
    else if |t| >= 1 && t[|t| - 1] == '=' then 1
    else 0
  }

  /** Decoding per section 4 of RFC 4648: a multiple of four characters,
      alphabet letters followed by at most two '='. */
  function Decode(t: string): Option<seq<Byte>>
  {
    if |t| % 4 != 0 then None
    else
      match Read(t[..|t| - PadLength(t)])
      case None => None
      case Some(ds) => FromSextets(ds)
  }

  lemma {:induction false} ReadRender(ds: seq<nat>)
    requires IsSextets(ds)
    ensures Read(Render(ds)) == Some(ds)
    decreases |ds|
  {
    if ds != [] {
      var t := Render(ds);
      IndexDigit(ds[0]);
      assert t[1..] == Render(ds[1..]);
      ReadRender(ds[1..]);
      assert ds == [ds[0]] + ds[1..];
    }
  }

  lemma GroupBytes(b0: Byte, b1: Byte, b2: Byte)
    ensures var ds := Group(b0, b1, b2);
            ds[0] * 4 + ds[1] / 16 == b0 && (ds[1] % 16) * 16 + ds[2] / 4 == b1 && (ds[2] % 4) * 64 + ds[3] == b2
  {
    var d1 := (b0 % 4) * 16 + b1 / 16;
    var d2 := (b1 % 16) * 4 + b2 / 64;
    assert d1 / 16 == b0 % 4 && d1 % 16 == b1 / 16;
    assert d2 / 4 == b1 % 16 && d2 % 4 == b2 / 64;
  }

  lemma FromSextetsCons(g: seq<nat>, rest: seq<nat>, b0: Byte, b1: Byte, b2: Byte)
    requires g == Group(b0, b1, b2) && IsSextets(rest)
    ensures IsSextets(g + rest)
    ensures FromSextets(g + rest) ==
      match FromSextets(rest)
      case None => None
      case Some(r) => Some([b0, b1, b2] + r)
  {
    RenderAppend(g, rest);
    var ds := g + rest;
    assert ds[4..] == rest;
    assert ds[..4] == g;
    GroupBytes(b0, b1, b2);
  }

  lemma {:induction false} FromSextetsSextets(bs: seq<Byte>)
    ensures FromSextets(Sextets(bs)) == Some(bs)
    decreases |bs|
  {
    if |bs| == 1 {
      GroupBytes(bs[0], 0, 0);
      assert bs == [bs[0]];
    } else if |bs| == 2 {
      GroupBytes(bs[0], bs[1], 0);
      assert bs == [bs[0], bs[1]];
    } else if |bs| >= 3 {
      var tail: seq<Byte> := bs[3..];
      assert bs == [bs[0], bs[1], bs[2]] + tail;
      FromSextetsSextets(tail);
      FromSextetsCons(Group(bs[0], bs[1], bs[2]), Sextets(tail), bs[0], bs[1], bs[2]);
    }
  }

  lemma EncodeLength(bs: seq<Byte>)
    ensures |Encode(bs)| == 4 * ((|bs| + 2) / 3)
  {
  }

  /** The padding is found again: the letters before it are never '='. */
  lemma PadLengthEncode(bs: seq<Byte>)
    ensures PadLength(Encode(bs)) == |Pad(|bs|)|
  {
    var r := Render(Sextets(bs));
    var t := Encode(bs);
    var n := |r|;
    if n > 0 {
      IndexDigit(Sextets(bs)[n - 1]);
      assert t[n - 1] == r[n - 1];
    }
    if n > 1 {
      IndexDigit(Sextets(bs)[n - 2]);
      assert t[n - 2] == r[n - 2];
    }
  }

  /** Decoding an encoding gives back the bytes. */
  lemma DecodeEncode(bs: seq<Byte>)
    ensures Decode(Encode(bs)) == Some(bs)
  {
    var ds := Sextets(bs);
    var t := Encode(bs);
    EncodeLength(bs);
    var m := (|bs| + 2) / 3;
    assert |t| == 4 * m;
    assert |t| % 4 == 0;
    PadLengthEncode(bs);
    assert t == Render(ds) + Pad(|bs|);
    assert t[..|t| - PadLength(t)] == Render(ds);
    ReadRender(ds);
    FromSextetsSextets(bs);
  }

  /** Length 4 * ceil(n / 3); every character before the padding is from the
      alphabet; the padding is "==" when n % 3 == 1, "=" when n % 3 == 2 and
      nothing when n % 3 == 0, so '=' appears only at the end. */
  lemma EncodeShape(bs: seq<Byte>)
    ensures var t, p := Encode(bs), |Pad(|bs|)|;
            |t| == 4 * ((|bs| + 2) / 3) &&
            (forall i :: 0 <= i < |t| - p ==> IsAlphabetChar(t[i])) &&
            (forall i :: |t| - p <= i < |t| ==> t[i] == '=')
  {
    var ds := Sextets(bs);
    var t := Encode(bs);
    EncodeLength(bs);
    forall i | 0 <= i < |ds| ensures IsAlphabetChar(t[i]) {
      IndexDigit(ds[i]);
    }
  }

  /** Input is consumed in groups of three, so a prefix whose length is a
      multiple of three encodes independently of what follows. */
  lemma {:induction false} EncodeUnitsAppend(s: seq<CodeUnit>, t: seq<CodeUnit>)
    requires |s| % 3 == 0
    ensures EncodeUnits(s + t) == EncodeUnits(s) + EncodeUnits(t)
    decreases |s|
  {
    if |s| > 0 {
      assert |s| >= 3;
      assert (s + t)[3..] == s[3..] + t;
      assert (s + t)[0] == s[0] && (s + t)[1] == s[1] && (s + t)[2] == s[2];
      EncodeUnitsAppend(s[3..], t);
    } else {
      assert s + t == t;
    }
  }

  predicate AllBytes(s: seq<CodeUnit>)
  {
    forall i :: 0 <= i < |s| ==> s[i] < 256
  }

  lemma SymDigit(k: nat)
    requires k < 64
    ensures Sym(k) == Str([Digit(k)])
  {
  }

  /** The two Or-ed fields of `enc2` and `enc3` do not overlap. */
  lemma OrFields(c0: CodeUnit, c1: CodeUnit, c2: CodeUnit)
    requires c1 < 256 && c2 < 256
    ensures Or((c0 % 4) * 16, c1 / 16) == (c0 % 4) * 16 + c1 / 16
    ensures Or((c1 % 16) * 4, c2 / 64) == (c1 % 16) * 4 + c2 / 64
  {
    assert Pow2(2) == 4 && Pow2(4) == 16;
    OrDisjoint(c0 % 4, c1 / 16, 4);
    OrDisjoint(c1 % 16, c2 / 64, 2);
  }

  /** One iteration of the loop over three code units writes the letters of one group. */
  lemma GroupLetters(c0: CodeUnit, c1: CodeUnit, c2: CodeUnit)
    requires c0 < 256 && c1 < 256 && c2 < 256
    ensures EncodeGroup(c0, Some(c1), Some(c2)) == Render(Group(c0, c1, c2))
  {
    OrFields(c0, c1, c2);
    var ds := Group(c0, c1, c2);
    SymDigit(ds[0]);
    SymDigit(ds[1]);
    SymDigit(ds[2]);
    SymDigit(ds[3]);
    assert Render(ds) == [Digit(ds[0]), Digit(ds[1]), Digit(ds[2]), Digit(ds[3])];
  }

  /** ... over the last two code units: three letters and '='. */
  lemma GroupLetters2(c0: CodeUnit, c1: CodeUnit)
    requires c0 < 256 && c1 < 256
    ensures EncodeGroup(c0, Some(c1), None) == Render(Group(c0, c1, 0)[..3]) + "="
  {
    OrFields(c0, c1, 0);
    var e := Group(c0, c1, 0)[..3];
    SymDigit(e[0]);
    SymDigit(e[1]);
    SymDigit(e[2]);
    assert Render(e) == [Digit(e[0]), Digit(e[1]), Digit(e[2])];
  }

  /** ... over the last code unit: two letters and "==". */
  lemma GroupLetters1(c0: CodeUnit)
    requires c0 < 256
    ensures EncodeGroup(c0, None, None) == Render(Group(c0, 0, 0)[..2]) + "=="
  {
    OrFields(c0, 0, 0);
    var f := Group(c0, 0, 0)[..2];
    SymDigit(f[0]);
    SymDigit(f[1]);
    assert Render(f) == [Digit(f[0]), Digit(f[1])];
  }

  lemma RenderAppend(a: seq<nat>, b: seq<nat>)
    requires IsSextets(a) && IsSextets(b)
    ensures IsSextets(a + b) && Render(a + b) == Render(a) + Render(b)
  {
    assert IsSextets(a + b) by {
      forall i | 0 <= i < |a + b| ensures (a + b)[i] < 64 {
        if i >= |a| { assert (a + b)[i] == b[i - |a|]; }
      }
    }
  }

  /** The RFC encoding of three or more bytes: the letters of the first group, then the rest. */
  lemma EncodeCons(bs: seq<Byte>)
    requires |bs| >= 3
    ensures Encode(bs) == Render(Group(bs[0], bs[1], bs[2])) + Encode(bs[3..])
  {
    RenderAppend(Group(bs[0], bs[1], bs[2]), Sextets(bs[3..]));
    assert Pad(|bs|) == Pad(|bs| - 3);
  }

  lemma UnitsAgreeStep(s: seq<CodeUnit>)
    requires |s| >= 3 && AllBytes(s) && EncodeUnits(s[3..]) == Encode(s[3..])
    ensures EncodeUnits(s) == Encode(s)
  {
    GroupLetters(s[0], s[1], s[2]);
    EncodeCons(s);
  }

  /** For code units below 256 the loop computes the RFC 4648 encoding. */
  lemma {:induction false} UnitsAgree(s: seq<CodeUnit>)
    requires AllBytes(s)
    ensures EncodeUnits(s) == Encode(s)
    decreases |s|
  {
    if |s| == 1 {
      GroupLetters1(s[0]);
    } else if |s| == 2 {
      GroupLetters2(s[0], s[1]);
    } else if |s| >= 3 {
      var tail := s[3..];
      assert AllBytes(tail) by {
        forall i | 0 <= i < |tail| ensures tail[i] < 256 { assert tail[i] == s[i + 3]; }
      }
      UnitsAgree(tail);
      UnitsAgreeStep(s);
    }
  }

  /** The round trip of `base64Encode` for code units below 256. */
  lemma DecodeEncodeUnits(s: seq<CodeUnit>)
    requires AllBytes(s)
    ensures Decode(EncodeUnits(s)) == Some(s)
  {
    UnitsAgree(s);
    DecodeEncode(s);
  }

  // ---------------------------------------------------------------------
  // Code units of 256 and above

  /** U+0100 shifts to index 64, the pad character, in a non-padding position,
      and the output is not valid base64. */
  lemma CodeUnit256(s: seq<CodeUnit>)
    requires s == [256]
    ensures EncodeUnits(s) == "=A==" && Decode(EncodeUnits(s)) == None
  {
    var t := EncodeUnits(s);
    assert t[..|t| - PadLength(t)] == "=A";
  }

  /** A larger code unit indexes past the table and writes "undefined". */
  lemma CodeUnit1000(s: seq<CodeUnit>)
    requires s == [1000]
    ensures EncodeUnits(s) == "undefinedA=="
  {
  }

  /** Two out-of-table indices in a row add up to `NaN` (`undefined +
      undefined`), which the rest of the sum then follows: "АА" (U+0410
      twice) writes "NaNA=". */
  lemma CodeUnitPairNaN(s: seq<CodeUnit>)
    requires s == [1040, 1040]
    ensures EncodeUnits(s) == "NaNA="
  {
    assert EncodeUnits(s) == EncodeGroup(1040, Some(1040), None);
    assert Or(0, 65) == 65 && Or(0, 0) == 0;
    assert Sym(260) == Undefined && Sym(65) == Undefined && Sym(0) == Str("A") by {
      assert Chars()[0] == 'A';
    }
  }
}
