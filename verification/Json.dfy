/**
 JSON texts (RFC 8259): the reader the fingerprints are built on, and the compact way in
 which internal/questions/fingerprint.go prints a value (lines 90-208). A number is a token
 of the grammar in section 6 of RFC 8259; what it is worth is left to the caller.
 */
module Json {
  import opened Options
  import opened Ordering

  datatype Json =
    | Null
    | Boolean(value: bool)
    | Text(text: string)
    | Numeral(token: string)
    | Array(items: seq<Json>)
    | Object(members: seq<Entry<Json>>)

  // ---------------------------------------------------------------- strings

  function HexDigit(n: int): char
    requires 0 <= n < 16
  {
    "0123456789abcdef"[n]
  }

  function Escaped(c: char): string {
    if c == '\"' then "\\\""
    else if c == '\\' then "\\\\"
    else if c == 8 as char then "\\b"
    else if c == 12 as char then "\\f"
    else if c == '\n' then "\\n"
    else if c == '\r' then "\\r"
    else if c == '\t' then "\\t"
    else if c < ' ' then "\\u00" + [HexDigit(c as int / 16), HexDigit(c as int % 16)]
    else [c]
  }

  function EscapedAll(s: string): string {
    if s == "" then "" else EscapedAll(s[..|s| - 1]) + Escaped(s[|s| - 1])
  }

  function Quoted(s: string): string {
    "\"" + EscapedAll(s) + "\""
  }

  // ---------------------------------------------------------------- printing

  /** Prints a value as it stands: members in their order, and numbers as they are written. */
  function Print(v: Json): string
    decreases v, 0
  {
    match v
    case Null => "null"
    case Boolean(b) => if b then "true" else "false"
    case Text(t) => Quoted(t)
    case Numeral(t) => t
    case Array(items) => "[" + PrintItems(items) + "]"
    case Object(members) => "{" + PrintMembers(members) + "}"
  }

  function PrintItems(items: seq<Json>): string
    decreases items
  {
    if items == [] then ""
    else if |items| == 1 then Print(items[0])
    else Print(items[0]) + "," + PrintItems(items[1..])
  }

  function PrintMembers(members: seq<Entry<Json>>): string
    decreases members
  {
    if members == [] then ""
    else
      var first := Quoted(members[0].key) + ":" + Print(members[0].value);
      if |members| == 1 then first else first + "," + PrintMembers(members[1..])
  }

  // ---------------------------------------------------------------- reading

  datatype Read<+T> = Got(value: T, rest: string) | Bad

  predicate Space(c: char) {
    c == ' ' || c == '\t' || c == '\n' || c == '\r'
  }

  function Skip(s: string): (r: string)
    ensures |r| <= |s|
    ensures r != "" ==> !Space(r[0])
  {
    if s != "" && Space(s[0]) then Skip(s[1..]) else s
  }

  function HexValue(c: char): int {
    if '0' <= c <= '9' then c as int - '0' as int
    else if 'a' <= c <= 'f' then c as int - 'a' as int + 10
    else if 'A' <= c <= 'F' then c as int - 'A' as int + 10
    else -1
  }

  /** The code unit written by four hexadecimal digits, or -1. */
  function CodeUnit(s: string): (n: int)
    ensures -1 <= n < 0x10000
    ensures n >= 0 ==> |s| >= 4
  {
    if |s| < 4 then -1
    else
      var a, b, c, d := HexValue(s[0]), HexValue(s[1]), HexValue(s[2]), HexValue(s[3]);
      if a < 0 || b < 0 || c < 0 || d < 0 then -1 else ((a * 16 + b) * 16 + c) * 16 + d
  }

  const REPLACEMENT := 0xFFFD as char

  /** One escape after its backslash; half a surrogate pair reads as the replacement character. */
  function ReadEscape(s: string): (r: Read<char>)
    ensures r.Got? ==> |r.rest| < |s|
  {
    if s == "" then Bad
    else
      match s[0]
      case '\"' => Got('\"', s[1..])
      case '\\' => Got('\\', s[1..])
      case '/' => Got('/', s[1..])
      case 'b' => Got(8 as char, s[1..])
      case 'f' => Got(12 as char, s[1..])
      case 'n' => Got('\n', s[1..])
      case 'r' => Got('\r', s[1..])
      case 't' => Got('\t', s[1..])
      case 'u' =>
        var n := CodeUnit(s[1..]);
        if n < 0 then Bad
        else if n < 0xD800 || n >= 0xE000 then Got(n as char, s[5..])
        else
          var low := if |s| >= 11 && s[5] == '\\' && s[6] == 'u' then CodeUnit(s[7..]) else -1;
          if n < 0xDC00 && 0xDC00 <= low < 0xE000 then
            Got((0x10000 + (n - 0xD800) * 0x400 + (low - 0xDC00)) as char, s[11..])
          else Got(REPLACEMENT, s[5..])
      case _ => Bad
  }

  /** The rest of a string after its opening quotation mark. */
  function ReadString(s: string): (r: Read<string>)
    ensures r.Got? ==> |r.rest| < |s|
    decreases |s|
  {
    if s == "" then Bad
    else if s[0] == '\"' then Got("", s[1..])
    else if s[0] < ' ' then Bad
    else if s[0] == '\\' then
      match ReadEscape(s[1..])
      case Bad => Bad
      case Got(c, rest) => Prepended(c, ReadString(rest))
    else Prepended(s[0], ReadString(s[1..]))
  }

  function Prepended(c: char, r: Read<string>): Read<string> {
    if r.Got? then Got([c] + r.value, r.rest) else Bad
  }

  predicate NumberChar(c: char) {
    Digit(c) >= 0 || c in "+-.eE"
  }

  function NumberLength(s: string): (n: nat)
    ensures n <= |s|
    ensures forall i | 0 <= i < n :: NumberChar(s[i])
    ensures n < |s| ==> !NumberChar(s[n])
  {
    if s == "" || !NumberChar(s[0]) then 0 else 1 + NumberLength(s[1..])
  }

  function DropDigits(s: string): (r: string)
    ensures |r| <= |s|
  {
    if s != "" && Digit(s[0]) >= 0 then DropDigits(s[1..]) else s
  }

  predicate StartsWithDigit(s: string) {
    s != "" && Digit(s[0]) >= 0
  }

  /** An exponent, or nothing. */
  predicate ExponentPart(s: string) {
    s == "" || ((s[0] == 'e' || s[0] == 'E') &&
      var t := if |s| > 1 && (s[1] == '+' || s[1] == '-') then s[2..] else s[1..];
      StartsWithDigit(t) && DropDigits(t) == "")
  }

  /** A fraction and an exponent, each of them optional. */
  predicate FractionPart(s: string) {
    if s != "" && s[0] == '.' then StartsWithDigit(s[1..]) && ExponentPart(DropDigits(s[1..]))
    else ExponentPart(s)
  }

  /** The grammar of section 6 of RFC 8259. */
  predicate NumberToken(s: string) {
    && (forall i | 0 <= i < |s| :: NumberChar(s[i]))
    && var t := if s != "" && s[0] == '-' then s[1..] else s;
    && StartsWithDigit(t)
    && FractionPart(if t[0] == '0' then t[1..] else DropDigits(t))
  }

  predicate StartsWith(s: string, word: string) {
    |s| >= |word| && s[..|word|] == word
  }

  function ReadWord(s: string, word: string, v: Json): (r: Read<Json>)
    requires word != ""
    ensures r.Got? ==> |r.rest| < |s|
  {
    if StartsWith(s, word) then Got(v, s[|word|..]) else Bad
  }

  function ReadNumber(s: string): (r: Read<Json>)
    ensures r.Got? ==> |r.rest| < |s|
  {
    var n := NumberLength(s);
    if NumberToken(s[..n]) then Got(Numeral(s[..n]), s[n..]) else Bad
  }

  function ReadValue(s: string): (r: Read<Json>)
    ensures r.Got? ==> |r.rest| < |s|
    decreases |s|, 0
  {
    var t := Skip(s);
    if t == "" then Bad
    else if t[0] == '\"' then
      match ReadString(t[1..])
      case Bad => Bad
      case Got(text, rest) => Got(Text(text), rest)
    else if t[0] == '[' then
      var u := Skip(t[1..]);
      if u != "" && u[0] == ']' then Got(Array([]), u[1..])
      else
        match ReadItems(t[1..])
        case Bad => Bad
        case Got(items, rest) => Got(Array(items), rest)
    else if t[0] == '{' then
      var u := Skip(t[1..]);
      if u != "" && u[0] == '}' then Got(Object([]), u[1..])
      else
        match ReadMembers(t[1..])
        case Bad => Bad
        case Got(members, rest) => Got(Object(members), rest)
    else if t[0] == 'n' then ReadWord(t, "null", Null)
    else if t[0] == 't' then ReadWord(t, "true", Boolean(true))
    else if t[0] == 'f' then ReadWord(t, "false", Boolean(false))
    else ReadNumber(t)
  }

  /** At least one value, and the closing bracket. */
  function ReadItems(s: string): (r: Read<seq<Json>>)
    ensures r.Got? ==> |r.rest| < |s|
    decreases |s|, 1
  {
    match ReadValue(s)
    case Bad => Bad
    case Got(v, rest) =>
      var t := Skip(rest);
      if t == "" then Bad
      else if t[0] == ']' then Got([v], t[1..])
      else if t[0] != ',' then Bad
      else
        match ReadItems(t[1..])
        case Bad => Bad
        case Got(items, rest') => Got([v] + items, rest')
  }

  function ReadMember(s: string): (r: Read<Entry<Json>>)
    ensures r.Got? ==> |r.rest| < |s|
    decreases |s|, 1
  {
    var t := Skip(s);
    if t == "" || t[0] != '\"' then Bad
    else
      match ReadString(t[1..])
      case Bad => Bad
      case Got(key, rest) =>
        var u := Skip(rest);
        if u == "" || u[0] != ':' then Bad
        else
          match ReadValue(u[1..])
          case Bad => Bad
          case Got(v, rest') => Got(Entry(key, v), rest')
  }

  /** At least one member, and the closing brace. */
  function ReadMembers(s: string): (r: Read<seq<Entry<Json>>>)
    ensures r.Got? ==> |r.rest| < |s|
    decreases |s|, 2
  {
    match ReadMember(s)
    case Bad => Bad
    case Got(m, rest) =>
      var t := Skip(rest);
      if t == "" then Bad
      else if t[0] == '}' then Got([m], t[1..])
      else if t[0] != ',' then Bad
      else
        match ReadMembers(t[1..])
        case Bad => Bad
        case Got(members, rest') => Got([m] + members, rest')
  }

  /** The value of a whole text, unless it is not JSON or something follows the value. */
  function Parse(s: string): Option<Json> {
    var r := ReadValue(s);
    if r.Got? && Skip(r.rest) == "" then Some(r.value) else None
  }
}
