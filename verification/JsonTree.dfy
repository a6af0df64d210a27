/** A JSON text is the text of one tree: the grammar is unambiguous. */
module JsonTree {
  import opened Json

  /** What can follow a value: the end, a blank, or the next byte of its container. */
  predicate After(r: string) { r == "" || Ws(r[0]) || r[0] == ',' || r[0] == ']' || r[0] == '}' }

  // ---------------------------------------------------------------- strings put together

  lemma SameLength(a: string, x: string, b: string, y: string)
    requires a + x == b + y && |a| == |b|
    ensures a == b && x == y
  {
    assert a == (a + x)[..|a|] && b == (b + y)[..|a|];
    assert x == (a + x)[|a|..] && y == (b + y)[|a|..];
  }

  lemma FirstByte(a: string, x: string)
    requires a != ""
    ensures a + x != "" && (a + x)[0] == a[0] && (a + x)[1..] == a[1..] + x
  {}

  // ---------------------------------------------------------------- runs of bytes

  /** Two ways to begin a text with a run of such bytes, each as long as it goes. */
  lemma {:induction false} OneBlank(a: string, x: string, b: string, y: string)
    requires a + x == b + y && Blank(a) && Blank(b) && (x != "" ==> !Ws(x[0])) && (y != "" ==> !Ws(y[0]))
    ensures a == b && x == y
    decreases |a|
  {
    if a != "" { FirstByte(a, x); }
    if b != "" { FirstByte(b, y); }
    assert "" + x == x && "" + y == y;
    if a != "" && b != "" {
      OneBlank(a[1..], x, b[1..], y);
      assert a == [a[0]] + a[1..] && b == [b[0]] + b[1..];
    }
  }

  lemma {:induction false} OneDigits(a: string, x: string, b: string, y: string)
    requires a + x == b + y && Digits(a) && Digits(b) && (x != "" ==> !Digit(x[0])) && (y != "" ==> !Digit(y[0]))
    ensures a == b && x == y
    decreases |a|
  {
    if a != "" { FirstByte(a, x); }
    if b != "" { FirstByte(b, y); }
    assert "" + x == x && "" + y == y;
    if a != "" && b != "" {
      OneDigits(a[1..], x, b[1..], y);
      assert a == [a[0]] + a[1..] && b == [b[0]] + b[1..];
    }
  }

  // ---------------------------------------------------------------- strings

  /** How many bytes the first character of string contents takes. */
  function Width(s: string): (n: nat)
    ensures n > 0
  {
    if |s| > 1 && s[0] == '\\' then if s[1] == 'u' then 6 else 2 else 1
  }

  lemma BodyFirst(s: string)
    requires StringBody(s) && s != ""
    ensures Width(s) <= |s| && StringBody(s[Width(s)..]) && s[0] != '"' && (s[0] == '\\' ==> |s| > 1)
  {}

  /** A string ends at its first quote that is not escaped. */
  lemma {:induction false} OneString(a: string, x: string, b: string, y: string)
    requires StringBody(a) && StringBody(b) && a + ("\"" + x) == b + ("\"" + y)
    ensures a == b && x == y
    decreases |a|
  {
    hide StringBody, Width;
    if a != "" { BodyFirst(a); FirstByte(a, "\"" + x); }
    if b != "" { BodyFirst(b); FirstByte(b, "\"" + y); }
    assert "" + ("\"" + x) == "\"" + x && "" + ("\"" + y) == "\"" + y;
    assert a == "" <==> b == "";
    if a == "" {
      SameLength("\"", x, "\"", y);
    } else {
      SameWidth(a, x, b, y);
      var n := Width(a);
      Cut(a, n, "\"" + x);
      Cut(b, n, "\"" + y);
      SameLength(a[..n], a[n..] + ("\"" + x), b[..n], b[n..] + ("\"" + y));
      OneString(a[n..], x, b[n..], y);
    }
  }

  lemma Cut(a: string, n: nat, x: string)
    requires n <= |a|
    ensures a + x == a[..n] + (a[n..] + x) && a == a[..n] + a[n..]
  {}

  lemma SameWidth(a: string, x: string, b: string, y: string)
    requires a != "" && b != "" && a + ("\"" + x) == b + ("\"" + y)
    requires (a[0] == '\\' ==> |a| > 1) && (b[0] == '\\' ==> |b| > 1)
    ensures Width(a) == Width(b)
  {
    var t := a + ("\"" + x);
    assert t[0] == a[0] && t[0] == b[0];
    if a[0] == '\\' { assert t[1] == a[1] && t[1] == b[1]; }
  }

  // ---------------------------------------------------------------- numbers

  lemma AfterIs(r: string)
    requires After(r) && r != ""
    ensures !Digit(r[0]) && r[0] != '.' && r[0] != 'e' && r[0] != 'E' && r[0] != '+' && r[0] != '-'
  {}

  /** The exponent and what follows. */
  lemma OneExponent(n: Number, r: string, m: Number, q: string)
    requires NumberOk(n) && NumberOk(m) && After(r) && After(q) && n.mark + (n.exp + r) == m.mark + (m.exp + q)
    ensures n.mark == m.mark && n.exp == m.exp && r == q
  {
    hide After;
    MarkStarts(n, r);
    MarkStarts(m, q);
    if r != "" { AfterIs(r); }
    if q != "" { AfterIs(q); }
    SameLength(n.mark, n.exp + r, m.mark, m.exp + q);
    OneDigits(n.exp, r, m.exp, q);
  }

  lemma MarkStarts(n: Number, r: string)
    requires NumberOk(n) && After(r)
    ensures var t := n.mark + (n.exp + r);
            if n.mark == "" then t == r
            else |t| > 1 && (t[0] == 'e' || t[0] == 'E') && |n.mark| == if t[1] == '+' || t[1] == '-' then 2 else 1
    ensures n.mark == "" ==> r == "" || (r[0] != 'e' && r[0] != 'E')
  {
    if n.mark == "" {
      assert n.mark + (n.exp + r) == r;
    } else {
      var t := n.mark + (n.exp + r);
      assert t[|n.mark|] == n.exp[0] && t[0] == n.mark[0];
      if |n.mark| == 2 { assert t[1] == n.mark[1]; }
    }
  }

  /** The fraction, the exponent and what follows. */
  lemma OneTail(n: Number, r: string, m: Number, q: string)
    requires NumberOk(n) && NumberOk(m) && After(r) && After(q)
    requires Fraction(n.frac) + (n.mark + (n.exp + r)) == Fraction(m.frac) + (m.mark + (m.exp + q))
    ensures n.frac == m.frac && n.mark == m.mark && n.exp == m.exp && r == q
  {
    hide After, NumberOk;
    var x, y := n.mark + (n.exp + r), m.mark + (m.exp + q);
    FractionStarts(n, r);
    FractionStarts(m, q);
    if n.frac != "" && m.frac != "" {
      assert Fraction(n.frac) + x == "." + (n.frac + x) && Fraction(m.frac) + y == "." + (m.frac + y);
      SameLength(".", n.frac + x, ".", m.frac + y);
      assert Digits(n.frac) && Digits(m.frac) by { NumberParts(n); NumberParts(m); }
      OneDigits(n.frac, x, m.frac, y);
    }
    OneExponent(n, r, m, q);
  }

  lemma NumberParts(n: Number)
    requires NumberOk(n)
    ensures Digits(n.whole) && n.whole != "" && Digits(n.frac)
  {}

  lemma FractionStarts(n: Number, r: string)
    requires NumberOk(n) && After(r)
    ensures var x := n.mark + (n.exp + r);
            && (x != "" ==> !Digit(x[0]) && x[0] != '.')
            && (n.frac == "" ==> Fraction(n.frac) + x == x)
            && (n.frac != "" ==> (Fraction(n.frac) + x)[0] == '.')
  {
    MarkStarts(n, r);
    if r != "" { AfterIs(r); }
  }

  lemma OneNumber(n: Number, r: string, m: Number, q: string)
    requires NumberOk(n) && NumberOk(m) && After(r) && After(q) && NumberText(n) + r == NumberText(m) + q
    ensures n == m && r == q
  {
    hide After, NumberOk, Fraction;
    var x, y := Fraction(n.frac) + (n.mark + (n.exp + r)), Fraction(m.frac) + (m.mark + (m.exp + q));
    NumberSplits(n, r);
    NumberSplits(m, q);
    if n.minus { SameLength("-", n.whole + x, "-", m.whole + y); }
    OneDigits(n.whole, x, m.whole, y);
    OneTail(n, r, m, q);
  }

  /** A number's text, its sign and digits in turn. */
  lemma NumberSplits(n: Number, r: string)
    requires NumberOk(n) && After(r)
    ensures var x := Fraction(n.frac) + (n.mark + (n.exp + r));
            && NumberText(n) + r == (if n.minus then "-" + (n.whole + x) else n.whole + x)
            && Digits(n.whole) && (x != "" ==> !Digit(x[0]))
            && ((NumberText(n) + r)[0] == '-' <==> n.minus)
  {
    hide NumberOk, After;
    var x := Fraction(n.frac) + (n.mark + (n.exp + r));
    FractionStarts(n, r);
    NumberParts(n);
    assert Tail(n.frac, n.mark, n.exp) + r == x;
    assert n.whole + Tail(n.frac, n.mark, n.exp) + r == n.whole + x;
    if n.minus { assert NumberText(n) + r == "-" + (n.whole + x); } else { assert NumberText(n) + r == n.whole + x; }
    FirstByte(n.whole, x);
  }

  // ---------------------------------------------------------------- values

  /** A value begins with a byte that tells its kind, and that nothing between values begins with. */
  lemma ValueStarts(v: Value, r: string)
    requires ValueOk(v)
    ensures var t := Text(v) + r;
            && t != "" && !Ws(t[0]) && t[0] != ',' && t[0] != ':' && t[0] != ']' && t[0] != '}'
            && (v.Str? <==> t[0] == '"') && (v.Arr? <==> t[0] == '[') && (v.Obj? <==> t[0] == '{')
            && (v.Num? <==> t[0] == '-' || Digit(t[0]))
            && (v.Lit? ==> t[0] == LiteralText(v.literal)[0])
  {
    hide ItemsText, MembersText;
    match v {
      case Num(n) => NumberFirst(n);
      case _ =>
    }
  }

  lemma NumberFirst(n: Number)
    requires NumberOk(n)
    ensures NumberText(n) != "" && (NumberText(n)[0] == '-' || Digit(NumberText(n)[0]))
  {}

  lemma ArrText(v: Value, r: string)
    requires v.Arr?
    ensures Text(v) + r == "[" + ((if v.items == [] then v.gap else ItemsText(v.items)) + ("]" + r))
  {
    hide ItemsText;
  }

  lemma ObjText(v: Value, r: string)
    requires v.Obj?
    ensures Text(v) + r == "{" + ((if v.members == [] then v.gap else MembersText(v.members)) + ("}" + r))
  {
    hide MembersText;
  }

  lemma OneLiteral(l: Literal, r: string, k: Literal, q: string)
    requires LiteralText(l) + r == LiteralText(k) + q
    ensures l == k && r == q
  {
    assert (LiteralText(l) + r)[0] == LiteralText(l)[0] && (LiteralText(k) + q)[0] == LiteralText(k)[0];
    SameLength(LiteralText(l), r, LiteralText(k), q);
  }

  /** A value's text, followed by what can follow it, is that of one value. */
  lemma {:induction false} OneValue(v: Value, r: string, w: Value, q: string)
    requires ValueOk(v) && ValueOk(w) && After(r) && After(q) && Text(v) + r == Text(w) + q
    ensures v == w && r == q
    decreases v, 1
  {
    hide After, ItemsText, MembersText, NumberOk, StringBody, LiteralText, NumberText, Text;
    ValueStarts(v, r);
    ValueStarts(w, q);
    match v {
      case Lit(l) =>
        ScalarText(v);
        ScalarText(w);
        OneLiteral(l, r, w.literal, q);
      case Num(n) =>
        ScalarText(v);
        ScalarText(w);
        OneNumber(n, r, w.number, q);
      case Str(raw) =>
        StrText(raw, r);
        StrText(w.raw, q);
        SameLength("\"", raw + ("\"" + r), "\"", w.raw + ("\"" + q));
        OneString(raw, r, w.raw, q);
      case Arr(gap, items) =>
        ArrText(v, r);
        ArrText(w, q);
        var x, y := if items == [] then gap else ItemsText(items), if w.items == [] then w.gap else ItemsText(w.items);
        SameLength("[", x + ("]" + r), "[", y + ("]" + q));
        OneList(v, r, w, q);
      case Obj(gap, members) =>
        ObjText(v, r);
        ObjText(w, q);
        var x, y := if members == [] then gap else MembersText(members), if w.members == [] then w.gap else MembersText(w.members);
        SameLength("{", x + ("}" + r), "{", y + ("}" + q));
        OneObject(v, r, w, q);
    }
  }

  lemma ScalarText(v: Value)
    ensures v.Lit? ==> Text(v) == LiteralText(v.literal)
    ensures v.Num? ==> Text(v) == NumberText(v.number)
  {}

  lemma StrText(raw: string, r: string)
    ensures Text(Str(raw)) + r == "\"" + (raw + ("\"" + r))
  {}

  lemma {:induction false} OneList(v: Value, r: string, w: Value, q: string)
    requires v.Arr? && w.Arr? && ValueOk(v) && ValueOk(w)
    requires (if v.items == [] then v.gap else ItemsText(v.items)) + ("]" + r)
             == (if w.items == [] then w.gap else ItemsText(w.items)) + ("]" + q)
    ensures v == w && r == q
    decreases v, 0
  {
    hide ItemsText, Text;
    if v.items == [] || w.items == [] {
      if v.items != [] { ListStarts(v.items, "]" + r, w.gap, "]" + q); }
      if w.items != [] { ListStarts(w.items, "]" + q, v.gap, "]" + r); }
      OneBlank(v.gap, "]" + r, w.gap, "]" + q);
    } else {
      OneItems(v.items, "]" + r, w.items, "]" + q);
    }
    SameLength("]", r, "]", q);
  }

  /** No list of elements begins as an empty one. */
  lemma ListStarts(items: seq<Item>, r: string, gap: string, q: string)
    requires items != [] && (forall it <- items :: ItemOk(it)) && Blank(gap) && q != "" && q[0] == ']'
    ensures ItemsText(items) + r != gap + q
  {
    hide ItemsText, Text, ValueOk;
    var it := items[0];
    var rest := it.post + ItemsTail(items, r);
    assert ItemOk(it);
    ItemsSplit(items, r);
    ValueStarts(it.value, rest);
    if ItemsText(items) + r == gap + q { OneBlank(it.pre, Text(it.value) + rest, gap, q); }
  }

  /** What follows the first of the elements. */
  function ItemsTail(items: seq<Item>, r: string): string
    requires items != []
  {
    if |items| == 1 then r else "," + (ItemsText(items[1..]) + r)
  }

  lemma ItemsSplit(items: seq<Item>, r: string)
    requires items != []
    ensures ItemsText(items) + r == items[0].pre + (Text(items[0].value) + (items[0].post + ItemsTail(items, r)))
  {
    hide Text;
    ItemsUnfold(items);
    ItemRegroup(items[0].pre, Text(items[0].value), items[0].post, if |items| == 1 then "" else ItemsText(items[1..]), r);
  }

  lemma ItemsUnfold(items: seq<Item>)
    requires items != []
    ensures var head := items[0].pre + Text(items[0].value) + items[0].post;
            ItemsText(items) == if |items| == 1 then head else head + "," + ItemsText(items[1..])
  {
    hide Text;
  }

  lemma ItemRegroup(a: string, b: string, c: string, more: string, r: string)
    ensures (a + b + c) + r == a + (b + (c + r))
    ensures (a + b + c) + "," + more + r == a + (b + (c + ("," + (more + r))))
  {}

  lemma {:induction false} OneItems(items: seq<Item>, r: string, others: seq<Item>, q: string)
    requires items != [] && others != [] && (forall it <- items :: ItemOk(it)) && (forall it <- others :: ItemOk(it))
    requires r != "" && r[0] == ']' && q != "" && q[0] == ']' && ItemsText(items) + r == ItemsText(others) + q
    ensures items == others && r == q
    decreases items
  {
    hide ItemsText, Text, ValueOk, ItemsTail;
    var it, other := items[0], others[0];
    var x, y := ItemsTail(items, r), ItemsTail(others, q);
    assert ItemOk(it) && ItemOk(other);
    ItemsSplit(items, r);
    ItemsSplit(others, q);
    TailStarts(items, r);
    TailStarts(others, q);
    ValueStarts(it.value, it.post + x);
    ValueStarts(other.value, other.post + y);
    OneBlank(it.pre, Text(it.value) + (it.post + x), other.pre, Text(other.value) + (other.post + y));
    BlankThen(it.post, x);
    BlankThen(other.post, y);
    OneValue(it.value, it.post + x, other.value, other.post + y);
    OneBlank(it.post, x, other.post, y);
    assert it == other;
    TailIs(items, r);
    TailIs(others, q);
    if |items| > 1 {
      SameLength(",", ItemsText(items[1..]) + r, ",", ItemsText(others[1..]) + q);
      OneItems(items[1..], r, others[1..], q);
      assert items == [it] + items[1..] && others == [other] + others[1..];
    }
  }

  lemma TailIs(items: seq<Item>, r: string)
    requires items != []
    ensures ItemsTail(items, r) == if |items| == 1 then r else "," + (ItemsText(items[1..]) + r)
  {}

  lemma TailStarts(items: seq<Item>, r: string)
    requires items != [] && r != "" && r[0] == ']'
    ensures var x := ItemsTail(items, r); x != "" && (x[0] == ',' || x[0] == ']') && (x[0] == ',' <==> |items| > 1)
  {}

  lemma BlankThen(a: string, x: string)
    requires Blank(a) && x != "" && (x[0] == ',' || x[0] == ']' || x[0] == '}')
    ensures After(a + x)
  {
    if a != "" { FirstByte(a, x); } else { assert a + x == x; }
  }

  // ---------------------------------------------------------------- members

  lemma {:induction false} OneObject(v: Value, r: string, w: Value, q: string)
    requires v.Obj? && w.Obj? && ValueOk(v) && ValueOk(w)
    requires (if v.members == [] then v.gap else MembersText(v.members)) + ("}" + r)
             == (if w.members == [] then w.gap else MembersText(w.members)) + ("}" + q)
    ensures v == w && r == q
    decreases v, 0
  {
    hide MembersText, Text;
    if v.members == [] || w.members == [] {
      if v.members != [] { MembersStart(v.members, "}" + r, w.gap, "}" + q); }
      if w.members != [] { MembersStart(w.members, "}" + q, v.gap, "}" + r); }
      OneBlank(v.gap, "}" + r, w.gap, "}" + q);
    } else {
      OneMembers(v.members, "}" + r, w.members, "}" + q);
    }
    SameLength("}", r, "}", q);
  }

  lemma MembersStart(members: seq<Member>, r: string, gap: string, q: string)
    requires members != [] && (forall m <- members :: MemberOk(m)) && Blank(gap) && q != "" && q[0] == '}'
    ensures MembersText(members) + r != gap + q
  {
    hide MembersText, Text, ValueOk, StringBody;
    var m := members[0];
    assert MemberOk(m);
    MembersSplit(members, r);
    FirstByte("\"", KeyTail(members, r));
    if MembersText(members) + r == gap + q { OneBlank(m.pre, "\"" + KeyTail(members, r), gap, q); }
  }

  function MembersTail(members: seq<Member>, r: string): string
    requires members != []
  {
    if |members| == 1 then r else "," + (MembersText(members[1..]) + r)
  }

  /** From the first value on, and from the first key on. */
  function ValueTail(members: seq<Member>, r: string): string
    requires members != []
  {
    Text(members[0].value) + (members[0].post + MembersTail(members, r))
  }

  function KeyTail(members: seq<Member>, r: string): string
    requires members != []
  {
    members[0].key + ("\"" + (members[0].beforeColon + (":" + (members[0].afterColon + ValueTail(members, r)))))
  }

  lemma MembersSplit(members: seq<Member>, r: string)
    requires members != []
    ensures MembersText(members) + r == members[0].pre + ("\"" + KeyTail(members, r))
  {
    hide Text;
    var m := members[0];
    MembersUnfold(members);
    var more := if |members| == 1 then "" else MembersText(members[1..]);
    ItemRegroup(MemberHead(m), Text(m.value), m.post, more, r);
    HeadRegroup(m, ValueTail(members, r));
  }

  lemma HeadRegroup(m: Member, x: string)
    ensures MemberHead(m) + x == m.pre + ("\"" + (m.key + ("\"" + (m.beforeColon + (":" + (m.afterColon + x))))))
  {}

  lemma MembersUnfold(members: seq<Member>)
    requires members != []
    ensures var head := MemberHead(members[0]) + Text(members[0].value) + members[0].post;
            MembersText(members) == if |members| == 1 then head else head + "," + MembersText(members[1..])
  {
    hide Text, MemberHead;
  }

  /** The first member up to its value, and the rest of the text. */
  lemma OneHead(members: seq<Member>, r: string, others: seq<Member>, q: string)
    requires members != [] && others != [] && MemberOk(members[0]) && MemberOk(others[0])
    requires MembersText(members) + r == MembersText(others) + q
    ensures var m, o := members[0], others[0];
            && m.pre == o.pre && m.key == o.key && m.beforeColon == o.beforeColon && m.afterColon == o.afterColon
            && ValueTail(members, r) == ValueTail(others, q)
  {
    hide MembersText, ValueOk, StringBody, Text, ValueTail;
    var m, o := members[0], others[0];
    var x, y := ValueTail(members, r), ValueTail(others, q);
    MembersSplit(members, r);
    MembersSplit(others, q);
    TailValue(members, r);
    TailValue(others, q);
    FirstByte("\"", KeyTail(members, r));
    FirstByte("\"", KeyTail(others, q));
    OneBlank(m.pre, "\"" + KeyTail(members, r), o.pre, "\"" + KeyTail(others, q));
    SameLength("\"", KeyTail(members, r), "\"", KeyTail(others, q));
    var a, b := m.beforeColon + (":" + (m.afterColon + x)), o.beforeColon + (":" + (o.afterColon + y));
    OneString(m.key, a, o.key, b);
    FirstByte(":", m.afterColon + x);
    FirstByte(":", o.afterColon + y);
    OneBlank(m.beforeColon, ":" + (m.afterColon + x), o.beforeColon, ":" + (o.afterColon + y));
    SameLength(":", m.afterColon + x, ":", o.afterColon + y);
    OneBlank(m.afterColon, x, o.afterColon, y);
  }

  lemma TailValue(members: seq<Member>, r: string)
    requires members != [] && MemberOk(members[0])
    ensures ValueTail(members, r) != "" && !Ws(ValueTail(members, r)[0])
  {
    hide Text, ValueOk, MembersText;
    ValueStarts(members[0].value, members[0].post + MembersTail(members, r));
  }

  lemma {:induction false} OneMembers(members: seq<Member>, r: string, others: seq<Member>, q: string)
    requires members != [] && others != [] && (forall m <- members :: MemberOk(m)) && (forall m <- others :: MemberOk(m))
    requires r != "" && r[0] == '}' && q != "" && q[0] == '}' && MembersText(members) + r == MembersText(others) + q
    ensures members == others && r == q
    decreases members
  {
    hide MembersText, Text, ValueOk, MembersTail, StringBody;
    var m, o := members[0], others[0];
    var x, y := MembersTail(members, r), MembersTail(others, q);
    assert MemberOk(m) && MemberOk(o);
    OneHead(members, r, others, q);
    MembersTailIs(members, r);
    MembersTailIs(others, q);
    BlankThen(m.post, x);
    BlankThen(o.post, y);
    OneValue(m.value, m.post + x, o.value, o.post + y);
    OneBlank(m.post, x, o.post, y);
    assert m == o;
    if |members| > 1 {
      SameLength(",", MembersText(members[1..]) + r, ",", MembersText(others[1..]) + q);
      OneMembers(members[1..], r, others[1..], q);
      assert members == [m] + members[1..] && others == [o] + others[1..];
    }
  }

  lemma MembersTailIs(members: seq<Member>, r: string)
    requires members != [] && r != "" && r[0] == '}'
    ensures MembersTail(members, r) == if |members| == 1 then r else "," + (MembersText(members[1..]) + r)
    ensures var x := MembersTail(members, r); x != "" && (x[0] == ',' || x[0] == '}') && (x[0] == ',' <==> |members| > 1)
  {}

  // ---------------------------------------------------------------- texts

  /** Two trees with one text are one tree. */
  lemma OneTree(d: Doc, e: Doc)
    requires DocOk(d) && DocOk(e) && DocText(d) == DocText(e)
    ensures d == e
  {
    hide Text, ValueOk;
    ValueStarts(d.value, d.post);
    ValueStarts(e.value, e.post);
    DocSplit(d);
    DocSplit(e);
    OneBlank(d.pre, Text(d.value) + d.post, e.pre, Text(e.value) + e.post);
    OneValue(d.value, d.post, e.value, e.post);
  }

  lemma DocSplit(d: Doc)
    ensures DocText(d) == d.pre + (Text(d.value) + d.post)
  {
    hide Text;
  }
}
