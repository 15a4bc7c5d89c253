/** The pieces of Python's semantics that the handlers depend on: truthiness
    of decoded JSON values, exceptions, `str.upper()` and `", ".join(...)`. */
module Python {
  import opened Json

  /** `not v` is false exactly for these values: None, False, 0, "", [] and {}. */
  predicate Truthy(v: Value)
  {
    match v
    case Null => false
    case Bool(b) => b
    case Int(n) => n != 0
    case Str(s) => s != []
    case Array(items) => items != []
    case Object(members) => members != []
  }

  /** An exception, told apart only as far as the handlers' `except` clauses
      do: `KeyError` or any other; `text` is what `str(e)` gives. */
  datatype Exception = KeyError(text: string) | OtherError(text: string)

  /** The Python type name of a decoded JSON value. */
  function TypeName(v: Value): string
  {
    match v
    case Null => "NoneType"
    case Bool(_) => "bool"
    case Int(_) => "int"
    case Str(_) => "str"
    case Array(_) => "list"
    case Object(_) => "dict"
  }

  /** `str(e)` of the AttributeError raised by `data.get(...)` when the
      decoded body is not an object. */
  function NoAttributeGet(v: Value): string
  {
    "'" + TypeName(v) + "' object has no attribute 'get'"
  }

  // ---------------------------------------------------------------------------
  // str.upper()

  /** Upper-casing of one character, one for one: the ASCII letters, LATIN
      SMALL LETTER LONG S (U+017F, upper-cased to "S") and LATIN SMALL LETTER
      DOTLESS I (U+0131, upper-cased to "I"); every other character is left
      as it is. Python also expands fifteen characters into text holding
      ASCII capitals: ß (SS), ŉ (ʼN), ǰ (J̌), ẖ (H̱), ẗ (T̈), ẘ (W̊), ẙ (Y̊),
      ẚ (Aʾ), ﬀ (FF), ﬁ (FI), ﬂ (FL), ﬃ (FFI), ﬄ (FFL), ﬅ and ﬆ (ST). Each
      expansion either holds a non-ASCII character or is a pair of capitals
      (SS, FF, FI, FL, ST and the triples) that occurs in neither ASC nor
      DESC, so no such character can take part in an accepted direction;
      all other Unicode mappings yield no ASCII letter. */
  function UpperChar(c: char): char
  {
    if 'a' <= c <= 'z' then (c as int - 32) as char
    else if c == '\U{017F}' then 'S'
    else if c == '\U{0131}' then 'I'
    else c
  }

  function Upper(s: string): (u: string)
    ensures |u| == |s|
  {
    seq(|s|, i requires 0 <= i < |s| => UpperChar(s[i]))
  }

  /** The characters that upper-case to the ASCII capital `L`. */
  predicate Spells(c: char, L: char)
  {
    c == L || c as int == L as int + 32 || (L == 'S' && c == '\U{017F}') || (L == 'I' && c == '\U{0131}')
  }

  lemma SpellsExactly(c: char, L: char)
    requires 'A' <= L <= 'Z'
    ensures UpperChar(c) == L <==> Spells(c, L)
  {
  }

  /** Under the one-for-one upper-casing above, `Upper(s) == w`, for a word
      `w` of ASCII capitals, holds exactly when `s` spells `w` letter by
      letter in either case (or with a long s or a dotless i where `w` has S
      or I). For Python this is exact for ASC and DESC, not for words such
      as SS or ST that an expanding character reaches. */
  lemma {:induction false} UpperEquals(s: string, w: string)
    requires forall i :: 0 <= i < |w| ==> 'A' <= w[i] <= 'Z'
    ensures Upper(s) == w <==> |s| == |w| && forall i :: 0 <= i < |s| ==> Spells(s[i], w[i])
  {
    if |s| == |w| {
      forall i | 0 <= i < |s| ensures Upper(s)[i] == w[i] <==> Spells(s[i], w[i]) {
        SpellsExactly(s[i], w[i]);
      }
      if Upper(s) != w {
        var k :| 0 <= k < |s| && Upper(s)[k] != w[k];
        assert !Spells(s[k], w[k]);
      }
    }
  }

  // ---------------------------------------------------------------------------
  // sep.join(parts)

  function Join(parts: seq<string>, sep: string): string
    decreases |parts|
  {
    if |parts| == 0 then ""
    else if |parts| == 1 then parts[0]
    else parts[0] + sep + Join(parts[1..], sep)
  }

  /** The index of the first comma of `s`, or `|s|` when it has none. */
  function FirstComma(s: string): (i: nat)
    ensures i <= |s|
    ensures i < |s| ==> s[i] == ','
    ensures forall k :: 0 <= k < i ==> s[k] != ','
  {
    if s == [] || s[0] == ',' then 0 else 1 + FirstComma(s[1..])
  }

  /** Reads back a list written with `", ".join(...)`: cuts at every comma
      and skips the blank that follows it. */
  function SplitList(s: string): seq<string>
    decreases |s|
  {
    var i := FirstComma(s);
    if i == |s| then [s]
    else [s[..i]] + SplitList(s[(if i + 2 <= |s| then i + 2 else |s|)..])
  }

  /** Joining with ", " loses nothing when no part holds a comma:
      the list can be read back from the text. */
  lemma {:induction false} SplitJoin(parts: seq<string>)
    requires |parts| > 0
    requires forall k :: 0 <= k < |parts| ==> ',' !in parts[k]
    ensures SplitList(Join(parts, ", ")) == parts
  {
    var x := parts[0];
    if |parts| > 1 {
      var rest := Join(parts[1..], ", ");
      var s := x + ", " + rest;
      assert Join(parts, ", ") == s;
      var i := FirstComma(s);
      assert s[|x|] == ',';
      assert i == |x|;
      assert s[..i] == x;
      assert s[i + 2..] == rest;
      assert forall k :: 0 <= k < |parts[1..]| ==> parts[1..][k] == parts[k + 1];
      SplitJoin(parts[1..]);
    }
  }
}
