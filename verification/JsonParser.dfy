/** What the parser with a tree takes (`parse` in provider/include/provider/json.hpp): the JSON texts
    within its limits in which no object, at any depth, names a key twice.
 */
module JsonParser {
  import opened Json
  import opened Options
  import opened Automaton
  import opened JsonTree
  import opened JsonKeys

  const MAX_NODES: nat := 0x10_0000

  /** How many values a value holds, itself included. */
  function Nodes(v: Value): (n: nat)
    ensures n > 0
    decreases v
  {
    match v
    case Arr(_, items) => 1 + ItemNodes(items)
    case Obj(_, members) => 1 + MemberNodes(members)
    case _ => 1
  }

  function ItemNodes(items: seq<Item>): nat
    decreases items
  {
    if items == [] then 0 else Nodes(items[0].value) + ItemNodes(items[1..])
  }

  function MemberNodes(members: seq<Member>): nat
    decreases members
  {
    if members == [] then 0 else Nodes(members[0].value) + MemberNodes(members[1..])
  }

  /** No object in a value names a key twice. */
  predicate KeysApart(v: Value)
    decreases v
  {
    match v
    case Arr(_, items) => forall it <- items :: KeysApart(it.value)
    case Obj(_, members) => UniqueKeys(KeysOf(members)) && forall m <- members :: KeysApart(m.value)
    case _ => true
  }

  /** What it takes, beyond the grammar and the depth. */
  predicate Parseable(v: Value) { Nodes(v) <= MAX_NODES && KeysApart(v) }

  predicate Takes(d: Doc) { DocOk(d) && Depth(d.value) <= MAX_DEPTH && Parseable(d.value) }

  /** What `parse` makes of a text: its tree, or none if it takes none. */
  ghost predicate Parsed(body: string, parsed: Option<Doc>) {
    match parsed
    case Some(d) => Takes(d) && DocText(d) == body
    case None => forall d: Doc :: Takes(d) ==> DocText(d) != body
  }

  /** A text has one tree, so there is one answer to each. */
  lemma ParsedOnce(body: string, a: Option<Doc>, b: Option<Doc>)
    requires Parsed(body, a) && Parsed(body, b)
    ensures a == b
  {
    hide DocOk, Depth, Parseable, DocText;
    if a.Some? && b.Some? { OneTree(a.value, b.value); }
  }

  /** Of a text whose tree is known: that tree, or none if it is past a limit or repeats a key. */
  lemma ParsedIs(d: Doc, parsed: Option<Doc>)
    requires DocOk(d) && Parsed(DocText(d), parsed)
    ensures parsed == if Takes(d) then Some(d) else None
  {
    hide DocOk, Depth, Parseable, DocText;
    if parsed.Some? { OneTree(d, parsed.value); }
  }
}
