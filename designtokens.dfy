/** The design-token export (src/components/ViewLocalChanges.tsx): colours
    rendered as `#rrggbb[aa]`, and the token tree built from the local
    variables (each placed at its `/`-separated path) and styles (colours,
    typography and shadows). Colour channels arrive as bytes already
    rounded from the 0..1 fractions Figma uses, so no floating point is
    involved; only whether an alpha is exactly 0 or exactly 1 is kept apart
    from its rounded byte. */
module DesignTokens {
  import opened Util
  import opened Json
  import opened Variables
  import JsonDiff

  type Byte = n: int | 0 <= n < 256

  /** A fraction in [0, 1]: exactly 0, exactly 1, or strictly between with
      the byte `Math.round(x * 255)` gives. */
  datatype Unit = Zero | One | Between(rounded: Byte)

  function UnitByte(u: Unit): Byte
  {
    match u
    case Zero => 0
    case One => 255
    case Between(b) => b
  }

  // ---------------------------------------------------------------------
  // rgbaToHex

  /** `n.toString(16)` for a natural number: no leading zeros. */
  function HexString(n: nat): (s: string)
    ensures |s| >= 1
    decreases n
  {
    if n < 16 then [HexDigit(n)] else HexString(n / 16) + [HexDigit(n % 16)]
  }

  /** `s.padStart(2, "0")`. */
  function PadStart2(s: string): string
  {
    if |s| >= 2 then s else seq(2 - |s|, _ => '0') + s
  }

  /** `toHex`: the byte in hexadecimal, padded to two digits. */
  function ToHex(n: Byte): string
  {
    PadStart2(HexString(n))
  }

  /** Every byte gives exactly two lower-case digits that read back as it. */
  lemma ToHexDigits(n: Byte)
    ensures |ToHex(n)| == 2
    ensures IsLowerHexDigit(ToHex(n)[0]) && IsLowerHexDigit(ToHex(n)[1])
    ensures HexValue(ToHex(n)[0]) * 16 + HexValue(ToHex(n)[1]) == n
  {
    HexDigitValue(n / 16);
    HexDigitValue(n % 16);
    if n < 16 {
      assert ToHex(n) == ['0', HexDigit(n)];
    } else {
      assert HexString(n / 16) == [HexDigit(n / 16)];
      assert ToHex(n) == [HexDigit(n / 16), HexDigit(n % 16)];
    }
  }

  /** `rgbaToHex(r, g, b, a)`: the alpha digits only when a is not exactly 1. */
  function RgbaToHex(r: Byte, g: Byte, b: Byte, a: Unit): string
  {
    var hex := "#" + ToHex(r) + ToHex(g) + ToHex(b);
    if a != One then hex + ToHex(UnitByte(a)) else hex
  }

  /** The argument default `a = 1`. */
  function AlphaArgument(a: Option<Unit>): Unit
  {
    if a.Some? then a.value else One
  }

  /** `#` and six lower-case hex digits for an opaque colour, eight otherwise;
      an opaque colour is what the diff view shows a swatch for, and a
      translucent one is not. */
  lemma RgbaToHexShape(r: Byte, g: Byte, b: Byte, a: Unit)
    ensures var s := RgbaToHex(r, g, b, a);
            |s| == (if a == One then 7 else 9)
            && s[0] == '#'
            && (forall i :: 1 <= i < |s| ==> IsLowerHexDigit(s[i]))
            && (JsonDiff.IsHexColor(s) <==> a == One)
  {
    ToHexDigits(r);
    ToHexDigits(g);
    ToHexDigits(b);
    ToHexDigits(UnitByte(a));
    var s := RgbaToHex(r, g, b, a);
    forall i | 1 <= i < |s| ensures IsLowerHexDigit(s[i]) {
      if i < 3 { assert s[i] == ToHex(r)[i - 1]; }
      else if i < 5 { assert s[i] == ToHex(g)[i - 3]; }
      else if i < 7 { assert s[i] == ToHex(b)[i - 5]; }
      else { assert s[i] == ToHex(UnitByte(a))[i - 7]; }
    }
  }

  // ---------------------------------------------------------------------
  // Variables as design tokens

  /** The `value` or `resolvedValue` of a variable: missing, a colour object
      with byte channels and an optional alpha, or any other JSON value. */
  datatype RawValue = Undefined | ColorObject(r: Byte, g: Byte, b: Byte, a: Option<Unit>) | Plain(j: Json)

  datatype TokenVariable = TokenVariable(
    name: string, vtype: string, resolvedValue: RawValue, value: RawValue, description: Option<string>)

  datatype TokenCollection = TokenCollection(variables: seq<TokenVariable>)

  predicate RawTruthy(v: RawValue)
  {
    match v
    case Undefined => false
    case ColorObject(_, _, _, _) => true
    case Plain(j) => JsTruthy(j)
  }

  predicate TruthyString(s: Option<string>)
  {
    s.Some? && s.value != ""
  }

  /** A colour object written as it is (its channels as bytes). */
  function ColorJson(r: Byte, g: Byte, b: Byte, a: Option<Unit>): Json
  {
    JObj([("r", JNum(r)), ("g", JNum(g)), ("b", JNum(b))] + if a.Some? then [("a", JNum(UnitByte(a.value)))] else [])
  }

  /** `processedValue`: a COLOR variable's colour object becomes its hex. */
  function Processed(vtype: string, value: RawValue): Option<Json>
  {
    match value
    case Undefined => None
    case ColorObject(r, g, b, a) =>
      if vtype == "COLOR" then Some(JStr(RgbaToHex(r, g, b, AlphaArgument(a)))) else Some(ColorJson(r, g, b, a))
    case Plain(j) => Some(j)
  }

  /** The value the leaf shows: `resolvedValue || value`, processed. */
  function LeafValue(v: TokenVariable): Option<Json>
  {
    Processed(v.vtype, if RawTruthy(v.resolvedValue) then v.resolvedValue else v.value)
  }

  /** The leaf object written for a variable; `$value` is left undefined (so
      not written) when the value is falsy. */
  function Leaf(v: TokenVariable): Json
  {
    var value := LeafValue(v);
    JObj(
      (if value.Some? && JsTruthy(value.value) then [("$value", value.value)] else [])
      + [("$type", JStr(LowerCase(v.vtype)))]
      + (if TruthyString(v.description) then [("$description", JStr(v.description.value))] else []))
  }

  /** `$type` is the lower-cased type, `$description` is there exactly when
      the description is truthy, and `$value` exactly when the processed
      value is truthy; a truthy resolved value is preferred, and a COLOR
      variable's colour object becomes its hex. */
  lemma LeafSpec(v: TokenVariable)
    ensures Leaf(v).JObj?
    ensures Get(Leaf(v).members, "$type") == Some(JStr(LowerCase(v.vtype)))
    ensures HasKey(Leaf(v).members, "$description") <==> TruthyString(v.description)
    ensures TruthyString(v.description) ==> Get(Leaf(v).members, "$description") == Some(JStr(v.description.value))
    ensures HasKey(Leaf(v).members, "$value") <==> LeafValue(v).Some? && JsTruthy(LeafValue(v).value)
    ensures HasKey(Leaf(v).members, "$value") ==> Get(Leaf(v).members, "$value") == LeafValue(v)
    ensures RawTruthy(v.resolvedValue) ==> LeafValue(v) == Processed(v.vtype, v.resolvedValue)
    ensures v.vtype == "COLOR" && v.value.ColorObject? && !RawTruthy(v.resolvedValue) ==>
              LeafValue(v) == Some(JStr(RgbaToHex(v.value.r, v.value.g, v.value.b, AlphaArgument(v.value.a))))
  {
    var value := LeafValue(v);
    var head := if value.Some? && JsTruthy(value.value) then [("$value", value.value)] else [];
    var typed := [("$type", JStr(LowerCase(v.vtype)))];
    var described := if TruthyString(v.description) then [("$description", JStr(v.description.value))] else [];
    assert Leaf(v).members == head + typed + described;
    GetAppend(head + typed, described, "$type");
    GetAppend(head, typed, "$type");
    GetAppend(head + typed, described, "$description");
    GetAppend(head, typed, "$description");
    GetAppend(head + typed, described, "$value");
    GetAppend(head, typed, "$value");
  }

  /** Following a path of member names from a JSON value. */
  function GetPath(j: Json, path: seq<string>): Option<Json>
    decreases |path|
  {
    if path == [] then Some(j)
    else if !j.JObj? then None
    else
      var child := Get(j.members, path[0]);
      if child.None? then None else GetPath(child.value, path[1..])
  }

  /** `current[segment] || {}`. */
  function Descend(ms: seq<(string, Json)>, k: string): Json
  {
    var existing := Get(ms, k);
    if existing.Some? && JsTruthy(existing.value) then existing.value else JObj([])
  }

  /** The walk of the `current` pointer down the path: a missing or falsy
      member on the way becomes `{}`, the last segment gets the leaf, and an
      assignment into anything but an object is a TypeError (the module is
      strict code). */
  function SetAtPath(node: Json, path: seq<string>, leaf: Json): Result<Json>
    requires |path| >= 1
    decreases |path|
  {
    if !node.JObj? then Err("TypeError")
    else if |path| == 1 then Ok(JObj(Put(node.members, path[0], leaf)))
    else
      var child := SetAtPath(Descend(node.members, path[0]), path[1..], leaf);
      if child.Err? then child else Ok(JObj(Put(node.members, path[0], child.value)))
  }

  /** After the walk the leaf sits at the path. */
  lemma {:induction false} SetAtPathGet(node: Json, path: seq<string>, leaf: Json)
    requires |path| >= 1
    requires SetAtPath(node, path, leaf).Ok?
    ensures GetPath(SetAtPath(node, path, leaf).value, path) == Some(leaf)
    decreases |path|
  {
    GetPut(node.members, path[0], if |path| == 1 then leaf else SetAtPath(node, path, leaf).value.members[0].1, path[0]);
    if |path| > 1 {
      var next := Descend(node.members, path[0]);
      var child := SetAtPath(next, path[1..], leaf);
      SetAtPathGet(next, path[1..], leaf);
      GetPut(node.members, path[0], child.value, path[0]);
    } else {
      GetPut(node.members, path[0], leaf, path[0]);
    }
  }

  /** The walk changes only the top-level member on the path: every other
      member is kept, no member is removed, and the result is an object
      (what happens below that member is `SetAtPathGet` and
      `SetAtPathKeeps`). */
  lemma {:induction false} SetAtPathFrame(node: Json, path: seq<string>, leaf: Json, k: string)
    requires |path| >= 1
    requires SetAtPath(node, path, leaf).Ok?
    ensures var r := SetAtPath(node, path, leaf).value;
            node.JObj? && r.JObj?
            && (k != path[0] ==> Get(r.members, k) == Get(node.members, k))
            && (HasKey(node.members, k) ==> HasKey(r.members, k))
            && (leaf.JObj? && k == path[0] ==> Get(r.members, k).Some? && Get(r.members, k).value.JObj?)
    decreases |path|
  {
    var r := SetAtPath(node, path, leaf).value;
    if |path| == 1 {
      GetPut(node.members, path[0], leaf, k);
    } else {
      var next := Descend(node.members, path[0]);
      var child := SetAtPath(next, path[1..], leaf);
      SetAtPathFrame(next, path[1..], leaf, k);
      GetPut(node.members, path[0], child.value, k);
    }
  }

  /** Writing a second leaf at the same path is writing only the second. */
  lemma {:induction false} SetAtPathTwice(node: Json, path: seq<string>, first: Json, second: Json)
    requires |path| >= 1
    requires SetAtPath(node, path, first).Ok?
    ensures SetAtPath(SetAtPath(node, path, first).value, path, second) == SetAtPath(node, path, second)
    decreases |path|
  {
    var ms := node.members;
    var k := path[0];
    if |path| == 1 {
      PutPut(ms, k, first, second);
    } else {
      var next := Descend(ms, k);
      var c1 := SetAtPath(next, path[1..], first).value;
      var r1 := JObj(Put(ms, k, c1));
      assert SetAtPath(node, path, first).value == r1;
      SetAtPathFrame(next, path[1..], first, k);
      GetPut(ms, k, c1, k);
      assert Get(r1.members, k) == Some(c1) && JsTruthy(c1);
      SetAtPathTwice(next, path[1..], first, second);
      var c2 := SetAtPath(next, path[1..], second);
      assert SetAtPath(c1, path[1..], second) == c2;
      if c2.Ok? {
        PutPut(ms, k, c1, c2.value);
        assert SetAtPath(r1, path, second) == Ok(JObj(Put(ms, k, c2.value)));
      } else {
        assert SetAtPath(r1, path, second) == c2;
      }
    }
  }

  /** q leaves p: they agree up to position i and differ there. */
  predicate Leaves(q: seq<string>, p: seq<string>)
  {
    exists i :: 0 <= i < |p| && i < |q| && q[..i] == p[..i] && q[i] != p[i]
  }

  /** Every value reached by a path that leaves the written path is kept:
      an existing truthy member on the way is descended into rather than
      replaced, so its other members survive. */
  lemma {:induction false} SetAtPathKeeps(node: Json, path: seq<string>, leaf: Json, q: seq<string>, i: nat)
    requires |path| >= 1
    requires SetAtPath(node, path, leaf).Ok?
    requires i < |path| && i < |q| && q[..i] == path[..i] && q[i] != path[i]
    requires GetPath(node, q).Some?
    ensures GetPath(SetAtPath(node, path, leaf).value, q) == GetPath(node, q)
    decreases i
  {
    if i == 0 {
      KeepsAside(node, path, leaf, q);
    } else {
      PrefixTail(q, path, i);
      KeepsThrough(node, path, leaf, q);
      SetAtPathKeeps(Get(node.members, q[0]).value, path[1..], leaf, q[1..], i - 1);
    }
  }

  lemma PrefixTail(q: seq<string>, p: seq<string>, i: nat)
    requires 0 < i <= |q| && i <= |p| && q[..i] == p[..i]
    ensures q[0] == p[0] && q[1..][..i - 1] == p[1..][..i - 1]
  {
    assert q[0] == q[..i][0] == p[..i][0] == p[0];
    assert q[1..][..i - 1] == q[..i][1..] == p[..i][1..] == p[1..][..i - 1];
  }

  /** A path whose first segment is not the written one reads as before. */
  lemma KeepsAside(node: Json, path: seq<string>, leaf: Json, q: seq<string>)
    requires |path| >= 1 && SetAtPath(node, path, leaf).Ok?
    requires |q| >= 1 && q[0] != path[0]
    ensures GetPath(SetAtPath(node, path, leaf).value, q) == GetPath(node, q)
  {
    SetAtPathFrame(node, path, leaf, q[0]);
  }

  /** A path through the written member, found before the write, leads
      through the member that was descended into. */
  lemma KeepsThrough(node: Json, path: seq<string>, leaf: Json, q: seq<string>)
    requires |path| >= 2 && SetAtPath(node, path, leaf).Ok?
    requires |q| >= 2 && q[0] == path[0] && GetPath(node, q).Some?
    ensures node.JObj? && Get(node.members, q[0]).Some?
    ensures var c := Get(node.members, q[0]).value;
            SetAtPath(c, path[1..], leaf).Ok?
            && GetPath(SetAtPath(node, path, leaf).value, q) == GetPath(SetAtPath(c, path[1..], leaf).value, q[1..])
            && GetPath(node, q) == GetPath(c, q[1..])
            && GetPath(c, q[1..]).Some?
  {
    var c := Get(node.members, q[0]).value;
    assert c.JObj? && JsTruthy(c);
    assert Descend(node.members, path[0]) == c;
    var child := SetAtPath(c, path[1..], leaf).value;
    GetPut(node.members, path[0], child, q[0]);
  }

  const SchemaUrl: string := "https://design-tokens.github.io/format/v0.1/token-schema.json"

  /** The initial `tokens` object. */
  function Root(): Json
  {
    JObj([("$schema", JStr(SchemaUrl)), ("colors", JObj([])), ("typography", JObj([])), ("effects", JObj([]))])
  }

  /** The variables of every collection, in order. */
  function Flatten(collections: seq<TokenCollection>): seq<TokenVariable>
  {
    if collections == [] then [] else collections[0].variables + Flatten(collections[1..])
  }

  /** One variable's leaf written at its path. */
  function PlaceVariable(tokens: Json, v: TokenVariable): Result<Json>
  {
    SetAtPath(tokens, Segments(v.name), Leaf(v))
  }

  /** Placing the variables one after the other; a TypeError ends the export. */
  function PlaceVariables(tokens: Json, vs: seq<TokenVariable>): Result<Json>
    decreases |vs|
  {
    if vs == [] then Ok(tokens)
    else
      var next := PlaceVariable(tokens, vs[0]);
      if next.Err? then next else PlaceVariables(next.value, vs[1..])
  }

  /** A variable whose path runs through the `$schema` string cannot be
      placed: the walk would assign into a string. */
  lemma ThroughSchemaFails(v: TokenVariable)
    requires |Segments(v.name)| >= 2 && Segments(v.name)[0] == "$schema"
    ensures PlaceVariables(Root(), [v]).Err?
  {
    var t := Root();
    var parts := Segments(v.name);
    assert Get(t.members, "$schema") == Some(JStr(SchemaUrl));
    assert JsTruthy(JStr(SchemaUrl)) by { assert |SchemaUrl| > 0; }
    assert SetAtPath(JStr(SchemaUrl), parts[1..], Leaf(v)).Err?;
  }

  // ---------------------------------------------------------------------
  // Styles as design tokens

  datatype Rgb = Rgb(r: Byte, g: Byte, b: Byte)

  datatype Paint = Paint(ptype: string, color: Option<Rgb>, opacity: Option<Unit>)

  datatype Shadow = Shadow(etype: string, color: Option<(Rgb, Unit)>, offset: Option<(int, int)>, radius: Option<int>, spread: Option<int>)

  /** A style record; each kind of style reads its own fields. */
  datatype Style = Style(
    name: string, description: Option<string>, paints: seq<Paint>,
    fontFamily: Option<string>, fontSize: Option<int>, lineHeight: Option<int>, letterSpacing: Option<int>,
    paragraphSpacing: Option<int>, textCase: Option<string>, textDecoration: Option<string>,
    effects: Option<seq<Shadow>>)

  /** `opacity || 1` as written: an opacity of exactly 0 is falsy, so it is
      replaced by 1. */
  function AlphaOrOneAsWritten(a: Option<Unit>): Unit
  {
    if a.Some? && a.value != Zero then a.value else One
  }

  /** `opacity ?? 1`: only a missing opacity defaults to 1. */
  function AlphaOrOne(a: Option<Unit>): Unit
  {
    if a.Some? then a.value else One
  }

  /** As written, a solid paint with opacity 0 is exported opaque: a
      transparent black paint style gets the `$value` "#000000". */
  lemma TransparentPaintAsWritten(s: Style)
    requires s.paints == [Paint("SOLID", Some(Rgb(0, 0, 0)), Some(Zero))] && s.description == None
    ensures PaintToken(s) == JObj([("$value", JStr("#000000")), ("$type", JStr("color"))])
  {
    assert ToHex(0) == "00";
    assert AlphaOrOneAsWritten(s.paints[0].opacity) == One;
    assert RgbaToHex(0, 0, 0, One) == "#000000";
    assert Described(s.description) == [];
  }

  /** With the default applied only to a missing opacity, an opacity of 0
      keeps its zero alpha, and any given alpha is kept as it is. */
  lemma TransparentPaintCorrected()
    ensures RgbaToHex(0, 0, 0, AlphaOrOne(Some(Zero))) == "#00000000"
    ensures forall a :: AlphaOrOne(Some(a)) == a
    ensures AlphaOrOne(None) == One
  {
    assert ToHex(0) == "00";
  }

  /** As written, a shadow whose colour has alpha 0 gets an opaque colour:
      a transparent black shadow is written with "#000000". */
  lemma TransparentShadowAsWritten(e: Shadow)
    requires e.color == Some((Rgb(0, 0, 0), Zero))
    ensures ShadowJson(e).JObj? && |ShadowJson(e).members| >= 2
    ensures ShadowJson(e).members[1] == ("color", JStr("#000000"))
  {
    assert ToHex(0) == "00";
    assert AlphaOrOneAsWritten(Some(e.color.value.1)) == One;
    assert RgbaToHex(0, 0, 0, One) == "#000000";
  }

  /** With `a ?? 1` a shadow colour keeps its alpha: the colour has alpha
      digits exactly when the alpha is not 1, so a transparent shadow stays
      transparent. */
  lemma TransparentShadowCorrected(c: Rgb, a: Unit)
    ensures var hex := RgbaToHex(c.r, c.g, c.b, AlphaOrOne(Some(a)));
            (|hex| == 9 <==> a != One) && (a == Zero ==> hex[7..] == "00")
  {
    RgbaToHexShape(c.r, c.g, c.b, a);
    assert ToHex(0) == "00";
  }

  function OrString(s: Option<string>, default: string): Json
  {
    JStr(if TruthyString(s) then s.value else default)
  }

  function OrNumber(n: Option<int>, default: Json): Json
  {
    if n.Some? && n.value != 0 then JNum(n.value) else default
  }

  function Described(description: Option<string>): seq<(string, Json)>
  {
    if TruthyString(description) then [("$description", JStr(description.value))] else []
  }

  /** The `colors` entry of a paint style: the first paint's hex when it is
      a solid colour, otherwise no `$value`. */
  function PaintToken(s: Style): Json
    requires |s.paints| >= 1
  {
    var paint := s.paints[0];
    var value := if paint.ptype == "SOLID" && paint.color.Some?
                 then [("$value", JStr(RgbaToHex(paint.color.value.r, paint.color.value.g, paint.color.value.b, AlphaOrOneAsWritten(paint.opacity))))]
                 else [];
    JObj(value + [("$type", JStr("color"))] + Described(s.description))
  }

  /** The `$value` of a text style: each property with its default. */
  function TextValue(s: Style): Json
  {
    JObj([
           ("fontFamily", OrString(s.fontFamily, "System")),
           ("fontSize", OrNumber(s.fontSize, JNum(16))),
           ("lineHeight", OrNumber(s.lineHeight, JStr("normal"))),
           ("letterSpacing", OrNumber(s.letterSpacing, JNum(0))),
           ("paragraphSpacing", OrNumber(s.paragraphSpacing, JNum(0))),
           ("textCase", OrString(s.textCase, "none")),
           ("textDecoration", OrString(s.textDecoration, "none"))])
  }

  /** The `typography` entry of a text style. */
  function TextToken(s: Style): Json
  {
    JObj([("$value", TextValue(s)), ("$type", JStr("typography"))] + Described(s.description))
  }

  /** One shadow of an effect style; a shadow without a colour has no `color`. */
  function ShadowJson(e: Shadow): Json
  {
    var offset := if e.offset.Some? then e.offset.value else (0, 0);
    JObj([("type", JStr(e.etype))]
         + (if e.color.Some? then [("color", JStr(RgbaToHex(e.color.value.0.r, e.color.value.0.g, e.color.value.0.b, AlphaOrOneAsWritten(Some(e.color.value.1)))))] else [])
         + [("offset", JObj([("x", JNum(offset.0)), ("y", JNum(offset.1))])),
            ("radius", JNum(if e.radius.Some? then e.radius.value else 0)),
            ("spread", JNum(if e.spread.Some? then e.spread.value else 0))])
  }

  function Shadows(es: seq<Shadow>): (r: seq<Json>)
    ensures |r| == |es|
    ensures forall i :: 0 <= i < |es| ==> r[i] == ShadowJson(es[i])
  {
    if es == [] then [] else [ShadowJson(es[0])] + Shadows(es[1..])
  }

  /** The `effects` entry of an effect style: `[]` when it has no effects. */
  function EffectToken(s: Style): Json
  {
    JObj([("$value", JArr(if s.effects.Some? then Shadows(s.effects.value) else [])), ("$type", JStr("shadow"))]
         + Described(s.description))
  }

  /** `tokens[bucket][name] = entry`. */
  function SetMember(tokens: Json, bucket: string, name: string, entry: Json): Result<Json>
  {
    if !tokens.JObj? then Err("TypeError")
    else
      var b := Get(tokens.members, bucket);
      if b.Some? && b.value.JObj? then Ok(JObj(Put(tokens.members, bucket, JObj(Put(b.value.members, name, entry)))))
      else Err("TypeError")
  }

  /** One style of one kind; kinds other than paint, text and effect are skipped. */
  function PlaceStyle(tokens: Json, kind: string, s: Style): Result<Json>
  {
    if kind == "paint" then (if |s.paints| >= 1 then SetMember(tokens, "colors", s.name, PaintToken(s)) else Ok(tokens))
    else if kind == "text" then SetMember(tokens, "typography", s.name, TextToken(s))
    else if kind == "effect" then SetMember(tokens, "effects", s.name, EffectToken(s))
    else Ok(tokens)
  }

  /** `Object.entries(styles)` flattened to (kind, style) pairs, in order. */
  function FlattenStyles(styles: seq<(string, seq<Style>)>): seq<(string, Style)>
  {
    if styles == [] then []
    else OfKind(styles[0].0, styles[0].1) + FlattenStyles(styles[1..])
  }

  function PlaceStyles(tokens: Json, ss: seq<(string, Style)>): Result<Json>
    decreases |ss|
  {
    if ss == [] then Ok(tokens)
    else
      var next := PlaceStyle(tokens, ss[0].0, ss[0].1);
      if next.Err? then next else PlaceStyles(next.value, ss[1..])
  }

  /** `formatAsDesignTokens(variables, styles)`. */
  function DesignTokenTree(collections: seq<TokenCollection>, styles: seq<(string, seq<Style>)>): Result<Json>
  {
    var placed := PlaceVariables(Root(), Flatten(collections));
    if placed.Err? then placed else PlaceStyles(placed.value, FlattenStyles(styles))
  }

  /** Placing two runs of variables is placing the first, then the second. */
  lemma {:induction false} PlaceVariablesAppend(tokens: Json, a: seq<TokenVariable>, b: seq<TokenVariable>)
    ensures PlaceVariables(tokens, a + b)
            == if PlaceVariables(tokens, a).Err? then PlaceVariables(tokens, a) else PlaceVariables(PlaceVariables(tokens, a).value, b)
    decreases |a|
  {
    if a == [] {
      assert a + b == b;
    } else {
      assert (a + b)[0] == a[0] && (a + b)[1..] == a[1..] + b;
      var next := PlaceVariable(tokens, a[0]);
      if next.Ok? {
        PlaceVariablesAppend(next.value, a[1..], b);
      }
    }
  }

  lemma {:induction false} PlaceStylesAppend(tokens: Json, a: seq<(string, Style)>, b: seq<(string, Style)>)
    ensures PlaceStyles(tokens, a + b)
            == if PlaceStyles(tokens, a).Err? then PlaceStyles(tokens, a) else PlaceStyles(PlaceStyles(tokens, a).value, b)
    decreases |a|
  {
    if a == [] {
      assert a + b == b;
    } else {
      assert (a + b)[0] == a[0] && (a + b)[1..] == a[1..] + b;
      var next := PlaceStyle(tokens, a[0].0, a[0].1);
      if next.Ok? {
        PlaceStylesAppend(next.value, a[1..], b);
      }
    }
  }

  /** `collection.variables.forEach`: each variable's leaf written in turn. */
  method PlaceCollection(start: Json, vs: seq<TokenVariable>) returns (r: Result<Json>)
    ensures r == PlaceVariables(start, vs)
  {
    var tokens := start;
    for j := 0 to |vs|
      invariant PlaceVariables(tokens, vs[j..]) == PlaceVariables(start, vs)
    {
      assert vs[j..][1..] == vs[j + 1..];
      var next := PlaceVariable(tokens, vs[j]);
      if next.Err? {
        return next;
      }
      tokens := next.value;
    }
    assert vs[|vs|..] == [];
    return Ok(tokens);
  }

  /** `variables.forEach` over the collections. */
  method PlaceAllVariables(start: Json, variables: seq<TokenCollection>) returns (r: Result<Json>)
    ensures r == PlaceVariables(start, Flatten(variables))
  {
    var tokens := start;
    for i := 0 to |variables|
      invariant PlaceVariables(tokens, Flatten(variables[i..])) == PlaceVariables(start, Flatten(variables))
    {
      assert Flatten(variables[i..]) == variables[i].variables + Flatten(variables[i + 1..]) by {
        assert variables[i..][1..] == variables[i + 1..];
      }
      PlaceVariablesAppend(tokens, variables[i].variables, Flatten(variables[i + 1..]));
      var next := PlaceCollection(tokens, variables[i].variables);
      if next.Err? {
        return next;
      }
      tokens := next.value;
    }
    assert variables[|variables|..] == [];
    return Ok(tokens);
  }

  /** The styles of one kind as (kind, style) pairs. */
  function OfKind(kind: string, list: seq<Style>): (r: seq<(string, Style)>)
    ensures |r| == |list|
    ensures forall k :: 0 <= k < |list| ==> r[k] == (kind, list[k])
  {
    seq(|list|, k requires 0 <= k < |list| => (kind, list[k]))
  }

  /** `stylesList.forEach` for one kind. */
  method PlaceStyleList(start: Json, kind: string, list: seq<Style>) returns (r: Result<Json>)
    ensures r == PlaceStyles(start, OfKind(kind, list))
  {
    var tokens := start;
    var pairs := OfKind(kind, list);
    for j := 0 to |list|
      invariant PlaceStyles(tokens, pairs[j..]) == PlaceStyles(start, pairs)
    {
      assert pairs[j..][0] == (kind, list[j]) && pairs[j..][1..] == pairs[j + 1..];
      var next := PlaceStyle(tokens, kind, list[j]);
      if next.Err? {
        return next;
      }
      tokens := next.value;
    }
    assert pairs[|list|..] == [];
    return Ok(tokens);
  }

  /** `Object.entries(styles).forEach`. */
  method PlaceAllStyles(start: Json, styles: seq<(string, seq<Style>)>) returns (r: Result<Json>)
    ensures r == PlaceStyles(start, FlattenStyles(styles))
  {
    var tokens := start;
    for i := 0 to |styles|
      invariant PlaceStyles(tokens, FlattenStyles(styles[i..])) == PlaceStyles(start, FlattenStyles(styles))
    {
      var (kind, list) := styles[i];
      assert FlattenStyles(styles[i..]) == OfKind(kind, list) + FlattenStyles(styles[i + 1..]) by {
        assert styles[i..][1..] == styles[i + 1..];
      }
      PlaceStylesAppend(tokens, OfKind(kind, list), FlattenStyles(styles[i + 1..]));
      var next := PlaceStyleList(tokens, kind, list);
      if next.Err? {
        return next;
      }
      tokens := next.value;
    }
    assert styles[|styles|..] == [];
    return Ok(tokens);
  }

  method FormatAsDesignTokens(variables: seq<TokenCollection>, styles: seq<(string, seq<Style>)>) returns (r: Result<Json>)
    ensures r == DesignTokenTree(variables, styles)
  {
    r := PlaceAllVariables(Root(), variables);
    if r.Ok? {
      r := PlaceAllStyles(r.value, styles);
    }
  }

  // ---------------------------------------------------------------------
  // The shape of the result

  /** The three style buckets are objects and `$schema` is a member. */
  predicate Shaped(tokens: Json)
  {
    tokens.JObj? && HasKey(tokens.members, "$schema")
    && IsBucket(tokens, "colors") && IsBucket(tokens, "typography") && IsBucket(tokens, "effects")
  }

  predicate IsBucket(tokens: Json, bucket: string)
    requires tokens.JObj?
  {
    Get(tokens.members, bucket).Some? && Get(tokens.members, bucket).value.JObj?
  }

  lemma RootShaped()
    ensures Shaped(Root())
  {
    var schema := [("$schema", JStr(SchemaUrl))];
    var colors := [("colors", JObj([]))];
    var typography := [("typography", JObj([]))];
    var effects := [("effects", JObj([]))];
    assert Root().members == schema + colors + typography + effects;
    GetAppend(schema + colors + typography, effects, "$schema");
    GetAppend(schema + colors, typography, "$schema");
    GetAppend(schema, colors, "$schema");
    GetAppend(schema + colors + typography, effects, "colors");
    GetAppend(schema + colors, typography, "colors");
    GetAppend(schema, colors, "colors");
    GetAppend(schema + colors + typography, effects, "typography");
    GetAppend(schema + colors, typography, "typography");
    GetAppend(schema, colors, "typography");
    GetAppend(schema + colors + typography, effects, "effects");
    GetAppend(schema + colors, typography, "effects");
    GetAppend(schema, colors, "effects");
  }

  lemma PlaceVariableShaped(tokens: Json, v: TokenVariable)
    requires Shaped(tokens)
    ensures PlaceVariable(tokens, v).Ok? ==> Shaped(PlaceVariable(tokens, v).value)
  {
    var next := PlaceVariable(tokens, v);
    if next.Ok? {
      LeafSpec(v);
      var path := Segments(v.name);
      SetAtPathFrame(tokens, path, Leaf(v), "$schema");
      SetAtPathFrame(tokens, path, Leaf(v), "colors");
      SetAtPathFrame(tokens, path, Leaf(v), "typography");
      SetAtPathFrame(tokens, path, Leaf(v), "effects");
    }
  }

  lemma {:induction false} PlaceVariablesShaped(tokens: Json, vs: seq<TokenVariable>)
    requires Shaped(tokens)
    ensures PlaceVariables(tokens, vs).Ok? ==> Shaped(PlaceVariables(tokens, vs).value)
    decreases |vs|
  {
    if vs != [] {
      PlaceVariableShaped(tokens, vs[0]);
      if PlaceVariable(tokens, vs[0]).Ok? {
        PlaceVariablesShaped(PlaceVariable(tokens, vs[0]).value, vs[1..]);
      }
    }
  }

  lemma SetMemberShaped(tokens: Json, bucket: string, name: string, entry: Json)
    requires Shaped(tokens) && IsBucket(tokens, bucket)
    ensures SetMember(tokens, bucket, name, entry).Ok? && Shaped(SetMember(tokens, bucket, name, entry).value)
  {
    var b := Get(tokens.members, bucket).value;
    var ms := Put(tokens.members, bucket, JObj(Put(b.members, name, entry)));
    GetPut(tokens.members, bucket, JObj(Put(b.members, name, entry)), "colors");
    GetPut(tokens.members, bucket, JObj(Put(b.members, name, entry)), "typography");
    GetPut(tokens.members, bucket, JObj(Put(b.members, name, entry)), "effects");
  }

  lemma PlaceStyleShaped(tokens: Json, kind: string, s: Style)
    requires Shaped(tokens)
    ensures PlaceStyle(tokens, kind, s).Ok? && Shaped(PlaceStyle(tokens, kind, s).value)
  {
    if kind == "paint" {
      if |s.paints| >= 1 { SetMemberShaped(tokens, "colors", s.name, PaintToken(s)); }
    } else if kind == "text" {
      SetMemberShaped(tokens, "typography", s.name, TextToken(s));
    } else if kind == "effect" {
      SetMemberShaped(tokens, "effects", s.name, EffectToken(s));
    }
  }

  lemma {:induction false} PlaceStylesShaped(tokens: Json, ss: seq<(string, Style)>)
    requires Shaped(tokens)
    ensures PlaceStyles(tokens, ss).Ok? && Shaped(PlaceStyles(tokens, ss).value)
    decreases |ss|
  {
    if ss != [] {
      PlaceStyleShaped(tokens, ss[0].0, ss[0].1);
      PlaceStylesShaped(PlaceStyle(tokens, ss[0].0, ss[0].1).value, ss[1..]);
    }
  }

  lemma ExportShape(start: Json, vs: seq<TokenVariable>, ss: seq<(string, Style)>)
    requires Shaped(start)
    ensures var placed := PlaceVariables(start, vs);
            placed.Ok? ==> PlaceStyles(placed.value, ss).Ok? && Shaped(PlaceStyles(placed.value, ss).value)
  {
    PlaceVariablesShaped(start, vs);
    var placed := PlaceVariables(start, vs);
    if placed.Ok? {
      PlaceStylesShaped(placed.value, ss);
    }
  }

  /** Styles never fail: the export fails exactly when placing a variable
      does, and otherwise always has `$schema`, `colors`, `typography` and
      `effects`. */
  lemma DesignTokenTreeShape(collections: seq<TokenCollection>, styles: seq<(string, seq<Style>)>)
    ensures DesignTokenTree(collections, styles).Ok? <==> PlaceVariables(Root(), Flatten(collections)).Ok?
    ensures DesignTokenTree(collections, styles).Ok? ==> Shaped(DesignTokenTree(collections, styles).value)
  {
    var root := Root();
    RootShaped();
    var vs := Flatten(collections);
    var ss := FlattenStyles(styles);
    ExportShape(root, vs, ss);
    assert DesignTokenTree(collections, styles) == (if PlaceVariables(root, vs).Err? then PlaceVariables(root, vs) else PlaceStyles(PlaceVariables(root, vs).value, ss));
  }

  /** A variable placed last is found at its path. */
  lemma LastVariablePlaced(tokens: Json, v: TokenVariable)
    requires PlaceVariables(tokens, [v]).Ok?
    ensures GetPath(PlaceVariables(tokens, [v]).value, Segments(v.name)) == Some(Leaf(v))
  {
    SetAtPathGet(tokens, Segments(v.name), Leaf(v));
  }

  /** Of two variables with the same name, the later one's leaf is kept. */
  lemma LaterVariableWins(tokens: Json, v: TokenVariable, w: TokenVariable)
    requires v.name == w.name
    requires PlaceVariables(tokens, [v]).Ok?
    ensures PlaceVariables(tokens, [v, w]) == PlaceVariables(tokens, [w])
  {
    var path := Segments(v.name);
    SetAtPathTwice(tokens, path, Leaf(v), Leaf(w));
    assert [v, w][1..] == [w];
  }

  /** Placing variables keeps every value found at a path that leaves each
      of their paths. */
  lemma {:induction false} PlaceVariablesKeeps(tokens: Json, vs: seq<TokenVariable>, q: seq<string>)
    requires PlaceVariables(tokens, vs).Ok?
    requires GetPath(tokens, q).Some?
    requires forall j :: 0 <= j < |vs| ==> Leaves(q, Segments(vs[j].name))
    ensures GetPath(PlaceVariables(tokens, vs).value, q) == GetPath(tokens, q)
    decreases |vs|
  {
    if vs != [] {
      var path := Segments(vs[0].name);
      assert Leaves(q, path);
      var i :| 0 <= i < |path| && i < |q| && q[..i] == path[..i] && q[i] != path[i];
      var next := PlaceVariable(tokens, vs[0]);
      SetAtPathKeeps(tokens, path, Leaf(vs[0]), q, i);
      forall j | 0 <= j < |vs[1..]| ensures Leaves(q, Segments(vs[1..][j].name)) {
        assert vs[1..][j] == vs[j + 1];
      }
      PlaceVariablesKeeps(next.value, vs[1..], q);
    }
  }

  /** A variable's leaf is still found after later variables are placed,
      as long as each later path leaves its path. */
  lemma EarlierVariableKept(tokens: Json, w: TokenVariable, vs: seq<TokenVariable>)
    requires PlaceVariables(tokens, [w] + vs).Ok?
    requires forall j :: 0 <= j < |vs| ==> Leaves(Segments(w.name), Segments(vs[j].name))
    ensures GetPath(PlaceVariables(tokens, [w] + vs).value, Segments(w.name)) == Some(Leaf(w))
  {
    var first := PlaceVariable(tokens, w);
    assert ([w] + vs)[1..] == vs;
    assert PlaceVariables(tokens, [w] + vs) == PlaceVariables(first.value, vs);
    SetAtPathGet(tokens, Segments(w.name), Leaf(w));
    PlaceVariablesKeeps(first.value, vs, Segments(w.name));
  }

  /** After `tokens[bucket][name] = entry`, the bucket holds the entry under
      the name, its other names read as before (n), and so do the other
      top-level members (k). */
  predicate Written(before: Json, after: Json, bucket: string, name: string, entry: Json, k: string, n: string)
  {
    before.JObj? && after.JObj?
    && Get(before.members, bucket).Some? && Get(before.members, bucket).value.JObj?
    && Get(after.members, bucket).Some? && Get(after.members, bucket).value.JObj?
    && Get(Get(after.members, bucket).value.members, name) == Some(entry)
    && (n != name ==> Get(Get(after.members, bucket).value.members, n) == Get(Get(before.members, bucket).value.members, n))
    && (k != bucket ==> Get(after.members, k) == Get(before.members, k))
  }

  lemma SetMemberWritten(tokens: Json, bucket: string, name: string, entry: Json, k: string, n: string)
    requires tokens.JObj? && IsBucket(tokens, bucket)
    ensures SetMember(tokens, bucket, name, entry).Ok?
    ensures Written(tokens, SetMember(tokens, bucket, name, entry).value, bucket, name, entry, k, n)
  {
    var b := Get(tokens.members, bucket).value;
    var nb := JObj(Put(b.members, name, entry));
    GetPut(tokens.members, bucket, nb, bucket);
    GetPut(tokens.members, bucket, nb, k);
    GetPut(b.members, name, entry, name);
    GetPut(b.members, name, entry, n);
  }

  /** Where a style is written: a paint style with a paint as `colors[name]`,
      a text style as `typography[name]`, an effect style as
      `effects[name]`, each leaving every other entry as it was; any other
      style changes nothing. */
  lemma PlaceStyleWritten(tokens: Json, kind: string, s: Style, k: string, n: string)
    requires Shaped(tokens)
    ensures PlaceStyle(tokens, kind, s).Ok?
    ensures var r := PlaceStyle(tokens, kind, s).value;
            (kind == "paint" && |s.paints| >= 1 ==> Written(tokens, r, "colors", s.name, PaintToken(s), k, n))
            && (kind == "text" ==> Written(tokens, r, "typography", s.name, TextToken(s), k, n))
            && (kind == "effect" ==> Written(tokens, r, "effects", s.name, EffectToken(s), k, n))
            && (kind !in ["paint", "text", "effect"] || (kind == "paint" && |s.paints| == 0) ==> r == tokens)
  {
    if kind == "paint" {
      if |s.paints| >= 1 { SetMemberWritten(tokens, "colors", s.name, PaintToken(s), k, n); }
    } else if kind == "text" {
      SetMemberWritten(tokens, "typography", s.name, TextToken(s), k, n);
    } else if kind == "effect" {
      SetMemberWritten(tokens, "effects", s.name, EffectToken(s), k, n);
    }
  }

  /** Paint, text and effect entries with their fixed `$type`s and defaults. */
  lemma StyleTokens(s: Style)
    ensures |s.paints| >= 1 ==> Get(PaintToken(s).members, "$type") == Some(JStr("color"))
    ensures Get(TextToken(s).members, "$type") == Some(JStr("typography"))
    ensures Get(TextToken(s).members, "$value") == Some(TextValue(s))
    ensures s.fontFamily.None? ==> Get(TextValue(s).members, "fontFamily") == Some(JStr("System"))
    ensures s.fontSize.None? ==> Get(TextValue(s).members, "fontSize") == Some(JNum(16))
    ensures Get(EffectToken(s).members, "$type") == Some(JStr("shadow"))
    ensures s.effects.None? ==> Get(EffectToken(s).members, "$value") == Some(JArr([]))
  {
    if |s.paints| >= 1 {
      var m := PaintToken(s).members;
      var paint := s.paints[0];
      if paint.ptype == "SOLID" && paint.color.Some? {
        assert m[0].0 == "$value" && m[1] == ("$type", JStr("color"));
        assert Get(m, "$type") == Get(m[1..], "$type");
      } else {
        assert m[0] == ("$type", JStr("color"));
      }
    }
    TextTokenFields(s);
    EffectTokenFields(s);
  }

  /** A text entry is typed `typography`, and a missing font family or size
      falls back to `System` and 16. */
  lemma TextTokenFields(s: Style)
    ensures Get(TextToken(s).members, "$type") == Some(JStr("typography"))
    ensures Get(TextToken(s).members, "$value") == Some(TextValue(s))
    ensures s.fontFamily.None? ==> Get(TextValue(s).members, "fontFamily") == Some(JStr("System"))
    ensures s.fontSize.None? ==> Get(TextValue(s).members, "fontSize") == Some(JNum(16))
  {
  }

  /** An effect entry is typed `shadow`, with an empty list when the style
      has no effects. */
  lemma EffectTokenFields(s: Style)
    ensures Get(EffectToken(s).members, "$type") == Some(JStr("shadow"))
    ensures s.effects.None? ==> Get(EffectToken(s).members, "$value") == Some(JArr([]))
  {
  }
}
