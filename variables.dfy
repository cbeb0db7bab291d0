/** The variable records the table views work on (`Variable` and
    `VariableValue` in src/types/index.ts). */
module Variables {
  import opened Util

  /** The value of a variable in one mode. */
  datatype VariableValue = VariableValue(
    value: string, displayValue: string, resolvedName: Option<string>,
    resolvedValue: Option<string>, hexColor: Option<string>, valueType: string)

  /** A variable: its `/`-separated name, its type name, its publishing flag,
      optional description and one value per mode name. */
  datatype Variable = Variable(
    hiddenFromPublishing: bool, name: string, vtype: string,
    description: Option<string>, modes: map<string, VariableValue>)

  /** `name.includes("/")`. */
  predicate HasSlash(name: string)
  {
    '/' in name
  }

  /** `s.split("/")`. */
  function Segments(name: string): (parts: seq<string>)
    ensures |parts| >= 1
  {
    Split(name, '/')
  }

  /** A name holding a `/` splits into at least two segments. */
  lemma {:induction false} SlashSegments(name: string)
    requires HasSlash(name)
    ensures |Segments(name)| >= 2
  {
    SplitLength(name, '/');
    CountPositive(name, '/');
  }

  lemma {:induction false} CountPositive(s: string, c: char)
    requires c in s
    ensures Count(s, c) >= 1
    decreases |s|
  {
    if s[0] != c {
      assert c in s[1..];
      CountPositive(s[1..], c);
    }
  }
}
