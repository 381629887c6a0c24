/**
 * The Python values the Notion client hands back (decoded JSON), and the
 * handful of Python operations the fridge scripts apply to them:
 * `d.get(k, default)`, `v[k]`, truthiness, `k in v`, `for x in v`, and
 * `str(v)` as used by an f-string.  Each operation that can raise returns a
 * `Result` whose failure is the Python exception it raises.
 */
module PyValues {
  import opened Wrappers

  /** A decoded JSON value: str, int, bool, None, list or dict. */
  datatype JVal =
    | JStr(s: string)
    | JNum(n: int)
    | JBool(b: bool)
    | JNull
    | JList(items: seq<JVal>)
    | JObj(fields: seq<Field>)

  /**
   * One entry of a dict; a dict keeps its entries in insertion order, as
   * Python does. Only entry lists without a repeated key stand for Python
   * dicts; on other lists `Lookup` would take the first entry for a key.
   */
  datatype Field = Field(key: string, value: JVal)

  /** A subscript: `v["name"]` or `v[0]`. */
  datatype Key = KStr(name: string) | KInt(index: int)

  /** The exceptions the modelled expressions can raise. */
  datatype PyError =
    | KeyError(key: Key)
    | IndexError(container: string)
    | TypeError(message: string)
    | AttributeError(typeName: string, attribute: string)
      /** An exception raised inside a foreign call (Notion, Cloudinary), by its text. */
    | Raised(message: string)

  const EmptyDict: JVal := JObj([])

  /** `type(v).__name__` */
  function TypeName(v: JVal): string {
    match v
    case JStr(_) => "str"
    case JNum(_) => "int"
    case JBool(_) => "bool"
    case JNull => "NoneType"
    case JList(_) => "list"
    case JObj(_) => "dict"
  }

  /** `bool(v)`: empty containers, zero, False and None are false. */
  predicate Truthy(v: JVal)
    ensures !Truthy(v) <==> v in {JNull, JBool(false), JNum(0), JStr(""), JList([]), EmptyDict}
  {
    match v
    case JStr(s) => s != []
    case JNum(n) => n != 0
    case JBool(b) => b
    case JNull => false
    case JList(xs) => xs != []
    case JObj(fs) => fs != []
  }

  /** The keys of a dict, in insertion order. */
  function Keys(fields: seq<Field>): (ks: seq<string>)
    ensures |ks| == |fields|
  {
    if fields == [] then [] else [fields[0].key] + Keys(fields[1..])
  }

  /** The value stored under `k`, if any (the first entry with that key). */
  function Lookup(fields: seq<Field>, k: string): (r: Option<JVal>)
    ensures r.None? <==> k !in Keys(fields)
  {
    if fields == [] then None
    else if fields[0].key == k then Some(fields[0].value)
    else Lookup(fields[1..], k)
  }

  lemma {:induction false} KeysAt(fields: seq<Field>)
    ensures forall i :: 0 <= i < |fields| ==> Keys(fields)[i] == fields[i].key
  {
    if fields != [] {
      KeysAt(fields[1..]);
      assert forall i :: 1 <= i < |fields| ==> fields[1..][i - 1] == fields[i];
    }
  }

  /** The entry at `i` is the one `Lookup` finds when no earlier entry has its key. */
  lemma {:induction false} LookupFirst(fields: seq<Field>, i: nat)
    requires i < |fields|
    requires forall j :: 0 <= j < i ==> fields[j].key != fields[i].key
    ensures Lookup(fields, fields[i].key) == Some(fields[i].value)
  {
    if i > 0 {
      assert fields[1..][i - 1] == fields[i];
      forall j | 0 <= j < i - 1 ensures fields[1..][j].key != fields[i].key {
        assert fields[1..][j] == fields[j + 1];
      }
      LookupFirst(fields[1..], i - 1);
    }
  }

  /** An entry no field carries is absent. */
  lemma LookupAbsent(fields: seq<Field>, k: string)
    requires forall i :: 0 <= i < |fields| ==> fields[i].key != k
    ensures Lookup(fields, k).None?
  {
    KeysAt(fields);
  }

  /** A two-entry dict literal. */
  lemma TwoEntries(k0: string, v0: JVal, k1: string, v1: JVal)
    requires k0 != k1
    ensures var fs := [Field(k0, v0), Field(k1, v1)];
      Keys(fs) == [k0, k1] && Lookup(fs, k0) == Some(v0) && Lookup(fs, k1) == Some(v1)
  {
    var fs := [Field(k0, v0), Field(k1, v1)];
    KeysAt(fs);
    LookupFirst(fs, 1);
  }

  /** No key occurs twice. */
  predicate Distinct(ks: seq<string>) {
    forall i, j :: 0 <= i < j < |ks| ==> ks[i] != ks[j]
  }

  /** In a dict without repeated keys every entry is the one its key finds. */
  lemma {:induction false} LookupDistinct(fields: seq<Field>)
    requires Distinct(Keys(fields))
    ensures forall i :: 0 <= i < |fields| ==> Lookup(fields, fields[i].key) == Some(fields[i].value)
  {
    KeysAt(fields);
    forall i | 0 <= i < |fields|
      ensures Lookup(fields, fields[i].key) == Some(fields[i].value)
    {
      forall j | 0 <= j < i
        ensures fields[j].key != fields[i].key
      {
        assert Keys(fields)[j] != Keys(fields)[i];
      }
      LookupFirst(fields, i);
    }
  }

  /** The value under `k` when `v` is a dict holding `k`. */
  function At(v: JVal, k: string): (r: Option<JVal>)
    ensures r.Some? <==> v.JObj? && k in Keys(v.fields)
  {
    if v.JObj? then Lookup(v.fields, k) else None
  }

  /** `d[k] = v`: an existing key keeps its place and takes the new value, a new key goes last. */
  function SetItem(fields: seq<Field>, k: string, v: JVal): (r: seq<Field>)
    ensures Lookup(r, k) == Some(v)
    ensures forall k' :: k' != k ==> Lookup(r, k') == Lookup(fields, k')
    ensures Keys(r) == if k in Keys(fields) then Keys(fields) else Keys(fields) + [k]
  {
    if fields == [] then
      assert Keys([Field(k, v)]) == [k] by { assert [Field(k, v)][1..] == []; }
      [Field(k, v)]
    else if fields[0].key == k then
      var r := [Field(k, v)] + fields[1..];
      assert r[1..] == fields[1..];
      r
    else
      var rest := SetItem(fields[1..], k, v);
      var r := [fields[0]] + rest;
      assert r[0] == fields[0] && r[1..] == rest;
      assert Keys(r) == [fields[0].key] + Keys(rest);
      assert Keys(fields) == [fields[0].key] + Keys(fields[1..]);
      assert (k in Keys(fields)) == (k in Keys(fields[1..]));
      assert [fields[0].key] + (Keys(fields[1..]) + [k]) == [fields[0].key] + Keys(fields[1..]) + [k];
      r
  }

  /** `v.get(k, default)`: only a dict has `get`. */
  function Get(v: JVal, k: string, default: JVal): (r: Result<JVal, PyError>)
    ensures r.Failure? <==> !v.JObj?
    ensures r.Failure? ==> r.error == AttributeError(TypeName(v), "get")
    ensures v.JObj? && k in Keys(v.fields) ==> r == Success(Lookup(v.fields, k).value)
    ensures v.JObj? && k !in Keys(v.fields) ==> r == Success(default)
  {
    match v
    case JObj(fs) => Success(Lookup(fs, k).GetOr(default))
    case _ => Failure(AttributeError(TypeName(v), "get"))
  }

  /** `v[key]` on a dict, a list or a str; anything else is not subscriptable. */
  function Subscript(v: JVal, key: Key): (r: Result<JVal, PyError>)
    ensures v.JObj? ==> (r.Success? <==> key.KStr? && key.name in Keys(v.fields))
    ensures v.JObj? && r.Success? ==> Lookup(v.fields, key.name) == Some(r.value)
    ensures v.JObj? && r.Failure? ==> r.error == KeyError(key)
    ensures v.JList? && key.KInt? && 0 <= key.index < |v.items| ==> r == Success(v.items[key.index])
    ensures v.JList? && key.KInt? && -|v.items| <= key.index < 0 ==> r == Success(v.items[|v.items| + key.index])
    ensures v.JList? && key.KInt? && !(-|v.items| <= key.index < |v.items|) ==> r == Failure(IndexError("list"))
    ensures v.JList? && key.KStr? ==> r.Failure? && r.error.TypeError?
    ensures v.JNum? || v.JBool? || v.JNull? ==> r.Failure? && r.error.TypeError?
  {
    match v
    case JObj(fs) =>
      (match key
       case KStr(k) => if k in Keys(fs) then Success(Lookup(fs, k).value) else Failure(KeyError(key))
       case KInt(_) => Failure(KeyError(key)))
    case JList(xs) =>
      (match key
       case KInt(i) =>
         if 0 <= i < |xs| then Success(xs[i])
         else if -|xs| <= i < 0 then Success(xs[|xs| + i])
         else Failure(IndexError("list"))
       case KStr(_) => Failure(TypeError("list indices must be integers or slices, not str")))
    case JStr(s) =>
      (match key
       case KInt(i) =>
         if 0 <= i < |s| then Success(JStr([s[i]]))
         else if -|s| <= i < 0 then Success(JStr([s[|s| + i]]))
         else Failure(IndexError("string"))
       case KStr(_) => Failure(TypeError("string indices must be integers, not 'str'")))
    case _ => Failure(TypeError("'" + TypeName(v) + "' object is not subscriptable"))
  }

  /** `v[k0][k1]...[kn]`, stopping at the first subscript that raises. */
  function Path(v: JVal, keys: seq<Key>): Result<JVal, PyError>
    decreases |keys|
  {
    if keys == [] then Success(v)
    else
      var next :- Subscript(v, keys[0]);
      Path(next, keys[1..])
  }

  /** Whether `needle` occurs in `s` as a contiguous run. */
  predicate IsSubstring(needle: string, s: string)
    decreases |s|
  {
    needle <= s || (s != [] && IsSubstring(needle, s[1..]))
  }

  /** `name in v` for a str `name`: dict keys, list members, substrings. */
  function Contains(v: JVal, name: string): (r: Result<bool, PyError>)
    ensures v.JObj? ==> r == Success(name in Keys(v.fields))
    ensures v.JList? ==> r == Success(JStr(name) in v.items)
    ensures v.JStr? ==> r == Success(IsSubstring(name, v.s))
    ensures r.Failure? <==> v.JNum? || v.JBool? || v.JNull?
    ensures r.Failure? ==> r.error == TypeError("argument of type '" + TypeName(v) + "' is not iterable")
  {
    match v
    case JObj(fs) => Success(name in Keys(fs))
    case JList(xs) => Success(JStr(name) in xs)
    case JStr(s) => Success(IsSubstring(name, s))
    case _ => Failure(TypeError("argument of type '" + TypeName(v) + "' is not iterable"))
  }

  /** The elements `for x in v` visits: list items, one-character strings, dict keys. */
  function Iterate(v: JVal): (r: Result<seq<JVal>, PyError>)
    ensures v.JList? ==> r == Success(v.items)
    ensures v.JObj? ==> r.Success? && |r.value| == |v.fields|
    ensures v.JObj? ==> forall i :: 0 <= i < |v.fields| ==> r.value[i] == JStr(v.fields[i].key)
    ensures r.Failure? <==> v.JNum? || v.JBool? || v.JNull?
    ensures r.Failure? ==> r.error == TypeError("'" + TypeName(v) + "' object is not iterable")
  {
    match v
    case JList(xs) => Success(xs)
    case JStr(s) => Success(seq(|s|, i requires 0 <= i < |s| => JStr([s[i]])))
    case JObj(fs) => Success(seq(|fs|, i requires 0 <= i < |fs| => JStr(fs[i].key)))
    case _ => Failure(TypeError("'" + TypeName(v) + "' object is not iterable"))
  }

  /** Decimal digits of a natural number. */
  function NatToDecimal(n: nat): (s: string)
    ensures s != []
    ensures forall i :: 0 <= i < |s| ==> '0' <= s[i] <= '9'
  {
    if n < 10 then [DigitChar(n)] else NatToDecimal(n / 10) + [DigitChar(n % 10)]
  }

  function DigitChar(d: nat): (c: char)
    requires d < 10
    ensures '0' <= c <= '9' && c as int - '0' as int == d
  {
    ('0' as int + d) as char
  }

  /** `str(n)` for an int. */
  function IntToDecimal(n: int): string {
    if n < 0 then "-" + NatToDecimal(-n) else NatToDecimal(n)
  }

  function HexDigits(b: nat): string
    requires b < 256
  {
    ["0123456789abcdef"[b / 16], "0123456789abcdef"[b % 16]]
  }

  /** One character of a string literal as `repr` writes it, between `quote` characters. */
  function EscapeChar(c: char, quote: char): string {
    if c == '\\' then "\\\\"
    else if c == quote then ['\\', c]
    else if c == '\t' then "\\t"
    else if c == '\n' then "\\n"
    else if c == '\r' then "\\r"
    else if c < ' ' || ('\U{7F}' <= c <= '\U{A0}') || c == '\U{AD}' then "\\x" + HexDigits(c as nat)
    else [c]
  }

  function EscapeString(s: string, quote: char): string {
    if s == [] then "" else EscapeChar(s[0], quote) + EscapeString(s[1..], quote)
  }

  /** Printable ASCII other than the backslash and both quotes: `repr` copies it unchanged. */
  predicate Plain(s: string) {
    forall i :: 0 <= i < |s| ==> ' ' <= s[i] <= '~' && s[i] != '\\' && s[i] != '\'' && s[i] != '"'
  }

  /** Plain text is its own escape. */
  lemma {:induction false} EscapePlain(s: string, quote: char)
    requires Plain(s) && (quote == '\'' || quote == '"')
    ensures EscapeString(s, quote) == s
  {
    if s != [] {
      assert Plain(s[1..]) by {
        forall i | 0 <= i < |s[1..]| ensures s[1..][i] == s[i + 1] {}
      }
      EscapePlain(s[1..], quote);
      assert s == [s[0]] + s[1..];
    }
  }

  /** `repr(s)`: single quotes, unless the text holds a single quote and no double quote. */
  function StrRepr(s: string): (r: string)
    ensures |r| >= 2 && r[0] == r[|r| - 1]
    ensures r[0] == (if '\'' in s && '"' !in s then '"' else '\'')
    ensures Plain(s) ==> r == "'" + s + "'"
  {
    var quote := if '\'' in s && '"' !in s then '"' else '\'';
    assert Plain(s) ==> EscapeString(s, quote) == s by {
      if Plain(s) { EscapePlain(s, quote); }
    }
    [quote] + EscapeString(s, quote) + [quote]
  }

  function Join(parts: seq<string>, sep: string): string {
    if parts == [] then ""
    else if |parts| == 1 then parts[0]
    else parts[0] + sep + Join(parts[1..], sep)
  }

  /** `repr(v)`, as `str` of a list or dict writes its members. */
  function Repr(v: JVal): string
    decreases v
  {
    match v
    case JStr(s) => StrRepr(s)
    case JNum(n) => IntToDecimal(n)
    case JBool(b) => if b then "True" else "False"
    case JNull => "None"
    case JList(xs) =>
      "[" + Join(seq(|xs|, i requires 0 <= i < |xs| => Repr(xs[i])), ", ") + "]"
    case JObj(fs) =>
      "{" + Join(seq(|fs|, i requires 0 <= i < |fs| => StrRepr(fs[i].key) + ": " + Repr(fs[i].value)), ", ") + "}"
  }

  /** `str(v)`, which an f-string substitutes: a str stands for itself, everything else as `repr`. */
  function Str(v: JVal): (r: string)
    ensures v.JStr? ==> r == v.s
    ensures v.JNull? ==> r == "None"
  {
    match v
    case JStr(s) => s
    case _ => Repr(v)
  }

  /** `str(e)` for an exception, as CPython 3.12 words it. */
  function Message(e: PyError): (r: string)
    ensures e.Raised? || e.TypeError? ==> r == e.message
    ensures e.KeyError? && e.key.KStr? ==> |r| >= 2 && r[0] == r[|r| - 1] && (r[0] == '\'' || r[0] == '"')
    ensures e.KeyError? && e.key.KStr? && Plain(e.key.name) ==> r == "'" + e.key.name + "'"
  {
    match e
    case KeyError(KStr(k)) => StrRepr(k)
    case KeyError(KInt(i)) => IntToDecimal(i)
    case IndexError(container) => container + " index out of range"
    case TypeError(m) => m
    case AttributeError(t, a) => "'" + t + "' object has no attribute '" + a + "'"
    case Raised(m) => m
  }
}
