/** The RFC 8259 grammar (sections 2 to 7) as concrete syntax trees over bytes.

    A tree keeps every byte of the text it prints, whitespace included, so "the text is JSON"
    is "some well-formed tree prints it". A byte is a `char`; as in the original, bytes above
    0x7F are ordinary string contents and UTF-8 is not checked.
 */
module Json {

  // ---------------------------------------------------------------- bytes

  predicate Ws(c: char) { c == ' ' || c == '\t' || c == '\n' || c == '\r' }

  predicate Digit(c: char) { '0' <= c <= '9' }

  predicate Hex(c: char) { Digit(c) || 'a' <= c <= 'f' || 'A' <= c <= 'F' }

  function DigitValue(c: char): (r: nat)
    requires Hex(c)
    ensures r < 16
  {
    if c <= '9' then (c as int) - ('0' as int)
    else if c <= 'F' then (c as int) - ('A' as int) + 10
    else (c as int) - ('a' as int) + 10
  }

  predicate Plain(c: char) { c != '"' && c != '\\' && ' ' <= c }

  predicate ShortEscape(c: char) {
    c == '"' || c == '\\' || c == '/' || c == 'b' || c == 'f' || c == 'n' || c == 'r' || c == 't'
  }

  predicate Blank(s: string) { forall k | 0 <= k < |s| :: Ws(s[k]) }

  predicate Digits(s: string) { forall k | 0 <= k < |s| :: Digit(s[k]) }

  // ---------------------------------------------------------------- trees

  datatype Literal = True | False | Null

  /** `frac` empty: no fraction. `mark` is the exponent's `e` and sign, empty for none. */
  datatype Number = Number(minus: bool, whole: string, frac: string, mark: string, exp: string)

  /** `raw` and `key` are string contents as written, between the quotes. `gap` is the blank
      an empty container holds. */
  datatype Value =
    | Lit(literal: Literal)
    | Num(number: Number)
    | Str(raw: string)
    | Arr(gap: string, items: seq<Item>)
    | Obj(gap: string, members: seq<Member>)

  datatype Item = Item(pre: string, value: Value, post: string)

  datatype Member = Member(pre: string, key: string, beforeColon: string, afterColon: string,
                           value: Value, post: string)

  /** A JSON text: a value with whitespace around it. */
  datatype Doc = Doc(pre: string, value: Value, post: string)

  // ---------------------------------------------------------------- well-formedness

  /** Section 7: plain bytes, two-byte escapes and `\u` with four hex digits. */
  predicate StringBody(s: string) {
    s == "" ||
    (Plain(s[0]) && StringBody(s[1..])) ||
    (|s| >= 2 && s[0] == '\\' && ShortEscape(s[1]) && StringBody(s[2..])) ||
    (|s| >= 6 && s[0] == '\\' && s[1] == 'u' && Hex(s[2]) && Hex(s[3]) && Hex(s[4]) && Hex(s[5]) &&
     StringBody(s[6..]))
  }

  /** Section 6: no leading zero, digits after a point and after an exponent mark. */
  predicate NumberOk(n: Number) {
    && Digits(n.whole) && n.whole != ""
    && (n.whole[0] == '0' ==> n.whole == "0")
    && Digits(n.frac) && Digits(n.exp)
    && (n.mark == "" <==> n.exp == "")
    && (n.mark == "" || MarkOk(n.mark))
  }

  predicate MarkOk(m: string) {
    && 1 <= |m| <= 2
    && (m[0] == 'e' || m[0] == 'E')
    && (|m| == 2 ==> m[1] == '+' || m[1] == '-')
  }

  predicate ValueOk(v: Value)
    decreases v
  {
    match v
    case Lit(_) => true
    case Num(n) => NumberOk(n)
    case Str(raw) => StringBody(raw)
    case Arr(gap, items) => Blank(gap) && (items != [] ==> gap == "") && forall it <- items :: ItemOk(it)
    case Obj(gap, members) => Blank(gap) && (members != [] ==> gap == "") && forall m <- members :: MemberOk(m)
  }

  /** An object of these members; the blank only counts if there are none. */
  function Braces(gap: string, members: seq<Member>): Value { Obj(if members == [] then gap else "", members) }

  predicate ItemOk(it: Item)
    decreases it
  {
    Blank(it.pre) && ValueOk(it.value) && Blank(it.post)
  }

  predicate MemberOk(m: Member)
    decreases m
  {
    && Blank(m.pre) && StringBody(m.key) && Blank(m.beforeColon) && Blank(m.afterColon)
    && ValueOk(m.value) && Blank(m.post)
  }

  predicate DocOk(d: Doc) { Blank(d.pre) && ValueOk(d.value) && Blank(d.post) }

  // ---------------------------------------------------------------- printing

  function LiteralText(l: Literal): string {
    match l
    case True => "true"
    case False => "false"
    case Null => "null"
  }

  function Fraction(frac: string): string { if frac == "" then "" else "." + frac }

  /** A number's text after its whole part. */
  function Tail(frac: string, mark: string, exp: string): string { Fraction(frac) + (mark + exp) }

  function NumberText(n: Number): string {
    (if n.minus then "-" else "") + (n.whole + Tail(n.frac, n.mark, n.exp))
  }

  function Text(v: Value): string
    decreases v
  {
    match v
    case Lit(l) => LiteralText(l)
    case Num(n) => NumberText(n)
    case Str(raw) => "\"" + raw + "\""
    case Arr(gap, items) => "[" + (if items == [] then gap else ItemsText(items)) + "]"
    case Obj(gap, members) => "{" + (if members == [] then gap else MembersText(members)) + "}"
  }

  function ItemText(it: Item): string
    decreases it
  {
    it.pre + Text(it.value) + it.post
  }

  function ItemsText(items: seq<Item>): string
    requires items != []
    decreases items
  {
    if |items| == 1 then ItemText(items[0]) else ItemText(items[0]) + "," + ItemsText(items[1..])
  }

  /** A member up to its value. */
  function MemberHead(m: Member): string {
    m.pre + "\"" + m.key + "\"" + m.beforeColon + ":" + m.afterColon
  }

  function MemberText(m: Member): string
    decreases m
  {
    MemberHead(m) + Text(m.value) + m.post
  }

  function MembersText(members: seq<Member>): string
    requires members != []
    decreases members
  {
    if |members| == 1 then MemberText(members[0])
    else MemberText(members[0]) + "," + MembersText(members[1..])
  }

  lemma MemberLong(m: Member)
    ensures |MemberText(m)| > 0
  {
    hide Text;
  }

  function DocText(d: Doc): string { d.pre + Text(d.value) + d.post }

  function KeysOf(members: seq<Member>): (r: seq<string>)
    ensures |r| == |members|
  {
    seq(|members|, i requires 0 <= i < |members| => members[i].key)
  }

  // ---------------------------------------------------------------- measures

  function Max(a: nat, b: nat): nat { if a < b then b else a }

  /** How many containers enclose the innermost value. */
  function Depth(v: Value): nat
    decreases v
  {
    match v
    case Arr(_, items) => 1 + ItemsDepth(items)
    case Obj(_, members) => 1 + MembersDepth(members)
    case _ => 0
  }

  function ItemsDepth(items: seq<Item>): nat
    decreases items
  {
    if items == [] then 0 else Max(Depth(items[0].value), ItemsDepth(items[1..]))
  }

  function MembersDepth(members: seq<Member>): nat
    decreases members
  {
    if members == [] then 0 else Max(Depth(members[0].value), MembersDepth(members[1..]))
  }
}
