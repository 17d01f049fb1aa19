/** JSON values, the canonical text `json.dumps` writes for them with sorted
    keys and no spaces, and a reader for JSON text after sections 2 to 7 of
    RFC 8259, restricted to integers, whole floats and escapes of single
    characters. */
module JsonText {
  import opened Options

  const MAX_WHOLE := 0x20_0000_0000_0000

  /** The whole numbers a float holds exactly, each as `n.0`; not minus zero. */
  type Whole = n: int | -MAX_WHOLE <= n <= MAX_WHOLE

  /** An object is a map: the order of its members carries no meaning. */
  datatype Json =
    | Null
    | Bool(flag: bool)
    | Number(value: int)
    | Float(whole: Whole)
    | Text(text: string)
    | Array(items: seq<Json>)
    | Object(members: map<string, Json>)

  // ---- Canonical text ----

  predicate IsDigit(c: char) { '0' <= c <= '9' }

  function DigitChar(d: nat): (c: char)
    requires d < 10
    ensures IsDigit(c) && DigitValue(c) == d
  {
    ('0' as int + d) as char
  }

  function DigitValue(c: char): nat
    requires IsDigit(c)
  {
    c as int - '0' as int
  }

  function Decimal(n: nat): (s: string)
    ensures s != "" && forall c :: c in s ==> IsDigit(c)
    ensures n == 0 ==> s == "0"
    ensures n != 0 ==> s[0] != '0'
  {
    if n < 10 then [DigitChar(n)] else Decimal(n / 10) + [DigitChar(n % 10)]
  }

  function Integer(n: int): string {
    if n < 0 then "-" + Decimal(-n) else Decimal(n)
  }

  predicate IsHex(c: char) { IsDigit(c) || 'a' <= c <= 'f' || 'A' <= c <= 'F' }

  function HexChar(d: nat): (c: char)
    requires d < 16
    ensures IsHex(c) && HexValue(c) == d
  {
    if d < 10 then DigitChar(d) else ('a' as int + d - 10) as char
  }

  function HexValue(c: char): (v: nat)
    requires IsHex(c)
    ensures v < 16
  {
    if IsDigit(c) then DigitValue(c)
    else if 'a' <= c <= 'f' then c as int - 'a' as int + 10
    else c as int - 'A' as int + 10
  }

  /** The escapes of section 7: those with a letter, and `\u00xx` for the other
      control characters. */
  function EscapeChar(c: char): string {
    if c == '"' then "\\\""
    else if c == '\\' then "\\\\"
    else if c == '\n' then "\\n"
    else if c == '\r' then "\\r"
    else if c == '\t' then "\\t"
    else if c as int == 8 then "\\b"
    else if c as int == 12 then "\\f"
    else if c < ' ' then "\\u00" + [HexChar(c as int / 16), HexChar(c as int % 16)]
    else [c]
  }

  function EscapeChars(s: string): string {
    if s == "" then "" else EscapeChar(s[0]) + EscapeChars(s[1..])
  }

  function Quote(s: string): string {
    "\"" + EscapeChars(s) + "\""
  }

  /** Keys are sorted by code point. */
  predicate Leq(a: string, b: string) {
    a == "" || (b != "" && (a[0] < b[0] || (a[0] == b[0] && Leq(a[1..], b[1..]))))
  }

  lemma LeqIsTotal(a: string, b: string)
    ensures Leq(a, b) || Leq(b, a)
    ensures Leq(a, b) && Leq(b, a) ==> a == b
  {
    if a != "" && b != "" && a[0] == b[0] {
      LeqIsTotal(a[1..], b[1..]);
      if a[1..] == b[1..] { assert a == [a[0]] + a[1..] && b == [b[0]] + b[1..]; }
    }
  }

  lemma LeqIsTransitive(a: string, b: string, c: string)
    requires Leq(a, b) && Leq(b, c)
    ensures Leq(a, c)
  {
  }

  lemma {:induction false} LeastExists(keys: set<string>) returns (least: string)
    requires keys != {}
    ensures least in keys && forall k :: k in keys ==> Leq(least, k)
  {
    var k :| k in keys;
    if keys == {k} {
      LeqIsTotal(k, k);
      least := k;
    } else {
      var rest := LeastExists(keys - {k});
      LeqIsTotal(k, rest);
      LeqIsTotal(k, k);
      least := if Leq(k, rest) then k else rest;
      forall j | j in keys ensures Leq(least, j) {
        if j != k && least == k { LeqIsTransitive(k, rest, j); }
      }
    }
  }

  function Least(keys: set<string>): (least: string)
    requires keys != {}
    ensures least in keys && forall k :: k in keys ==> Leq(least, k)
  {
    LeastIsUnique(keys);
    var least :| least in keys && forall k :: k in keys ==> Leq(least, k);
    least
  }

  lemma LeastIsUnique(keys: set<string>)
    requires keys != {}
    ensures exists least :: least in keys && forall k :: k in keys ==> Leq(least, k)
    ensures forall a, b ::
              (a in keys && (forall k :: k in keys ==> Leq(a, k)) && b in keys && (forall k :: k in keys ==> Leq(b, k)))
              ==> a == b
  {
    var least := LeastExists(keys);
    forall a, b | a in keys && b in keys && Leq(a, b) && Leq(b, a) ensures a == b {
      LeqIsTotal(a, b);
    }
  }

  function Sorted(keys: set<string>): (s: seq<string>)
    ensures (set k | k in s) == keys
    ensures |s| == |keys|
  {
    if keys == {} then []
    else
      var least := Least(keys);
      var rest := Sorted(keys - {least});
      assert keys == {least} + (keys - {least});
      assert (set k | k in [least] + rest) == {least} + (set k | k in rest);
      [least] + rest
  }

  function Encode(v: Json): string
    decreases v
  {
    match v
    case Null => "null"
    case Bool(flag) => if flag then "true" else "false"
    case Number(n) => Integer(n)
    case Float(n) => Integer(n) + ".0"
    case Text(s) => Quote(s)
    case Array(items) => if items == [] then "[]" else "[" + EncodeItems(items) + "]"
    case Object(members) =>
      if members == map[] then "{}" else "{" + EncodeMembers(v, Sorted(members.Keys)) + "}"
  }

  function EncodeItems(items: seq<Json>): string
    requires items != []
    decreases items
  {
    if |items| == 1 then Encode(items[0]) else Encode(items[0]) + "," + EncodeItems(items[1..])
  }

  function EncodeMembers(v: Json, keys: seq<string>): string
    requires v.Object? && keys != [] && forall k :: k in keys ==> k in v.members
    decreases v, |keys|
  {
    var member := Quote(keys[0]) + ":" + Encode(v.members[keys[0]]);
    if |keys| == 1 then member else member + "," + EncodeMembers(v, keys[1..])
  }

  // ---- Reading ----

  predicate IsSpace(c: char) { c == ' ' || c == '\t' || c == '\n' || c == '\r' }

  function SkipSpace(s: string): (t: string)
    ensures |t| <= |s|
  {
    if s != "" && IsSpace(s[0]) then SkipSpace(s[1..]) else s
  }

  function DigitRun(s: string): (n: nat)
    ensures n <= |s| && forall c :: c in s[..n] ==> IsDigit(c)
  {
    if s != "" && IsDigit(s[0]) then 1 + DigitRun(s[1..]) else 0
  }

  function NatOf(digits: string): nat
    requires forall c :: c in digits ==> IsDigit(c)
  {
    if digits == "" then 0
    else NatOf(digits[..|digits| - 1]) * 10 + DigitValue(digits[|digits| - 1])
  }

  /** `-?(0|[1-9][0-9]*)(\.0)?`; other fractions and exponents are not read. */
  function ParseNumber(s: string): (r: Option<(Json, string)>)
    ensures r.Some? ==> |r.value.1| < |s|
  {
    var negative := s != "" && s[0] == '-';
    var body := if negative then s[1..] else s;
    if body == "" || !IsDigit(body[0]) then None
    else
      var n := if body[0] == '0' then 1 else DigitRun(body);
      var value: int := NatOf(body[..n]);
      var signed := if negative then -value else value;
      var rest := body[n..];
      if ".0" <= rest && !GoesOn(rest[2..]) then
        if value > MAX_WHOLE || (negative && value == 0) then None else Some((Float(signed), rest[2..]))
      else if GoesOn(rest) then None
      else Some((Number(signed), rest))
  }

  /** More of the same number follows. */
  predicate GoesOn(s: string) {
    s != "" && (IsDigit(s[0]) || s[0] == '.' || s[0] == 'e' || s[0] == 'E')
  }

  function ParseEscape(s: string): (r: Option<(char, string)>)
    ensures r.Some? ==> |r.value.1| < |s|
  {
    if s == "" then None
    else if s[0] == '"' || s[0] == '\\' || s[0] == '/' then Some((s[0], s[1..]))
    else if s[0] == 'n' then Some(('\n', s[1..]))
    else if s[0] == 'r' then Some(('\r', s[1..]))
    else if s[0] == 't' then Some(('\t', s[1..]))
    else if s[0] == 'b' then Some((8 as char, s[1..]))
    else if s[0] == 'f' then Some((12 as char, s[1..]))
    else if s[0] == 'u' && |s| >= 5 && IsHex(s[1]) && IsHex(s[2]) && IsHex(s[3]) && IsHex(s[4]) then
      var code := HexValue(s[1]) * 4096 + HexValue(s[2]) * 256 + HexValue(s[3]) * 16 + HexValue(s[4]);
      if 0xD800 <= code < 0xE000 then None else Some((code as char, s[5..]))
    else None
  }

  /** The characters of a string after its opening quote. */
  function ParseChars(s: string): (r: Option<(string, string)>)
    ensures r.Some? ==> |r.value.1| < |s|
    decreases |s|
  {
    if s == "" || (s[0] < ' ') then None
    else if s[0] == '"' then Some(("", s[1..]))
    else
      var head := if s[0] == '\\' then ParseEscape(s[1..]) else Some((s[0], s[1..]));
      if head.None? then None
      else
        var tail := ParseChars(head.value.1);
        if tail.None? then None else Some(([head.value.0] + tail.value.0, tail.value.1))
  }

  function ParseValue(text: string): (r: Option<(Json, string)>)
    ensures r.Some? ==> |r.value.1| < |text|
    decreases |text|, 0
  {
    var s := SkipSpace(text);
    if s == "" then None
    else if "null" <= s then Some((Null, s[4..]))
    else if "true" <= s then Some((Bool(true), s[4..]))
    else if "false" <= s then Some((Bool(false), s[5..]))
    else if s[0] == '"' then
      var chars := ParseChars(s[1..]);
      if chars.None? then None else Some((Text(chars.value.0), chars.value.1))
    else if s[0] == '[' then
      var inner := SkipSpace(s[1..]);
      if inner != "" && inner[0] == ']' then Some((Array([]), inner[1..]))
      else
        var items := ParseItems(inner);
        if items.None? then None else Some((Array(items.value.0), items.value.1))
    else if s[0] == '{' then
      var inner := SkipSpace(s[1..]);
      if inner != "" && inner[0] == '}' then Some((Object(map[]), inner[1..]))
      else
        var members := ParseMembers(inner, map[]);
        if members.None? then None else Some((Object(members.value.0), members.value.1))
    else
      var number := ParseNumber(s);
      number
  }

  /** One or more values up to the closing bracket. */
  function ParseItems(text: string): (r: Option<(seq<Json>, string)>)
    ensures r.Some? ==> |r.value.1| < |text|
    decreases |text|, 1
  {
    var first := ParseValue(text);
    if first.None? then None
    else
      var rest := SkipSpace(first.value.1);
      if rest == "" then None
      else if rest[0] == ']' then Some(([first.value.0], rest[1..]))
      else if rest[0] != ',' then None
      else
        var others := ParseItems(rest[1..]);
        if others.None? then None else Some(([first.value.0] + others.value.0, others.value.1))
  }

  /** One or more members up to the closing brace; a repeated key takes its
      last value. */
  function ParseMembers(text: string, seen: map<string, Json>): (r: Option<(map<string, Json>, string)>)
    ensures r.Some? ==> |r.value.1| < |text|
    decreases |text|, 1
  {
    var s := SkipSpace(text);
    if s == "" || s[0] != '"' then None
    else
      var key := ParseChars(s[1..]);
      if key.None? then None
      else
        var colon := SkipSpace(key.value.1);
        if colon == "" || colon[0] != ':' then None
        else
          var value := ParseValue(colon[1..]);
          if value.None? then None
          else
            var members := seen[key.value.0 := value.value.0];
            var rest := SkipSpace(value.value.1);
            if rest == "" then None
            else if rest[0] == '}' then Some((members, rest[1..]))
            else if rest[0] != ',' then None
            else ParseMembers(rest[1..], members)
  }

  /** `json.loads`: one value and nothing after it but space. */
  function Loads(text: string): Option<Json> {
    var r := ParseValue(text);
    if r.Some? && SkipSpace(r.value.1) == "" then Some(r.value.0) else None
  }
}
