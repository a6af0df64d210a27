/** The container stack as one 64-bit word: bit d is set when the container at depth d + 1 is
    an object (provider/include/provider/body_scan.hpp, `_kinds`).
 */
module KindWord {
  import opened Automaton
  import opened Bits

  /** The word stands for the stack, whatever the bits above it hold. */
  ghost predicate Mirrors(kinds: bv64, stack: seq<Kind>) {
    |stack| <= 64 && forall d: nat | d < |stack| :: stack[d].InObj? <==> Bit(kinds, d)
  }

  lemma Empty()
    ensures Mirrors(0, [])
  {}

  /** Setting or clearing one bit pushes one kind. */
  method Push(kinds: bv64, depth: nat, kind: Kind, ghost stack: seq<Kind>) returns (pushed: bv64)
    requires Mirrors(kinds, stack) && depth == |stack| < 64
    ensures Mirrors(pushed, stack + [kind])
  {
    hide Bit, Put;
    pushed := Put(kinds, depth, kind.InObj?);
    forall e: nat | e <= depth ensures Bit(pushed, e) <==> (stack + [kind])[e].InObj? {
      PutBit(kinds, depth, kind.InObj?, e);
    }
  }

  /** The innermost container's kind. */
  method Top(kinds: bv64, depth: nat, ghost stack: seq<Kind>) returns (obj: bool)
    requires Mirrors(kinds, stack) && depth == |stack| > 0
    ensures obj <==> stack[depth - 1].InObj?
  {
    hide Bit;
    obj := Bit(kinds, depth - 1);
  }

  /** Lowering the depth alone pops. */
  lemma Pop(kinds: bv64, stack: seq<Kind>)
    requires Mirrors(kinds, stack) && stack != []
    ensures Mirrors(kinds, stack[..|stack| - 1])
  {
    hide Bit;
  }
}
