/**
  Data model of the per-function control-flow graphs that the interprocedural
  merge consumes. The external CFG builder's blocks refer to each other by
  object reference; here they live in an arena addressed by block id, and a
  link is a (source id, target id) pair.
 */
module Cfg {
  import opened Wrappers

  type BlockId = int

  /** A control-flow link. `exitCase` is the branch condition of an
      intraprocedural exit; the links the merge adds carry none. */
  datatype Link = Link(source: BlockId, target: BlockId, exitCase: Option<string>)

  /** A basic block: its rendered source text, outgoing and incoming links,
      and the names of the functions called inside it, in call order. */
  datatype Block = Block(source: string, exits: seq<Link>, predecessors: seq<Link>, calls: seq<string>)

  type Arena = map<BlockId, Block>

  /** One function's CFG: its entry block and all of its blocks, in the order
      the builder enumerates them. */
  datatype FunctionCfg = FunctionCfg(entry: BlockId, blocks: seq<BlockId>)

  /** Every block `g` names is allocated in the arena. */
  predicate Within(a: Arena, g: FunctionCfg) {
    g.entry in a && forall i | 0 <= i < |g.blocks| :: g.blocks[i] in a
  }

  /** The exits of block `x`; none for an id outside the arena. */
  function ExitsOf(a: Arena, x: BlockId): seq<Link> {
    if x in a then a[x].exits else []
  }

  /** The call names of block `x`; none for an id outside the arena. */
  function CallsOf(a: Arena, x: BlockId): seq<string> {
    if x in a then a[x].calls else []
  }

  /** `a'` differs from `a` at most in the exits and predecessors of blocks. */
  predicate ShapeKept(a: Arena, a': Arena) {
    && a'.Keys == a.Keys
    && forall x | x in a :: a'[x].source == a[x].source && a'[x].calls == a[x].calls
  }

  predicate Distinct<T(==)>(s: seq<T>) {
    forall i, j | 0 <= i < j < |s| :: s[i] != s[j]
  }

  /** Number of positions of `s` holding `x`. */
  function Occurrences<T(==)>(s: seq<T>, x: T): (n: nat)
    ensures n > 0 <==> x in s
    ensures n <= |s|
  {
    if s == [] then 0
    else
      var init := s[..|s| - 1];
      assert s == init + [s[|s| - 1]];
      Occurrences(init, x) + (if s[|s| - 1] == x then 1 else 0)
  }

  lemma OccurrencesSnoc<T>(s: seq<T>, j: int, x: T)
    requires 0 <= j < |s|
    ensures Occurrences(s[..j + 1], x) == Occurrences(s[..j], x) + (if s[j] == x then 1 else 0)
  {
    assert s[..j + 1][..j] == s[..j];
  }

  /** A value occurs at most once in a sequence without repetitions. */
  lemma {:induction false} DistinctOccursOnce<T>(s: seq<T>, x: T)
    requires Distinct(s)
    ensures Occurrences(s, x) <= 1
  {
    if s != [] {
      var init := s[..|s| - 1];
      assert Distinct(init);
      DistinctOccursOnce(init, x);
      if s[|s| - 1] == x {
        assert x !in init;
      }
    }
  }

  /** `grown` is `orig` followed by links each of which was absent from the
      sequence at the moment it was appended. */
  predicate AppendedFresh(orig: seq<Link>, grown: seq<Link>) {
    orig <= grown && forall i | |orig| <= i < |grown| :: grown[i] !in grown[..i]
  }

  lemma AppendedFreshTrans(s0: seq<Link>, s1: seq<Link>, s2: seq<Link>)
    requires AppendedFresh(s0, s1) && AppendedFresh(s1, s2)
    ensures AppendedFresh(s0, s2)
  {
    forall i | |s0| <= i < |s2|
      ensures s2[i] !in s2[..i]
    {
      if i < |s1| {
        assert s2[..i] == s1[..i];
      }
    }
  }

  /** The links a guarded append adds are pairwise different and new to the
      original sequence: no link is ever added twice. */
  lemma AppendedFreshDistinct(orig: seq<Link>, grown: seq<Link>)
    requires AppendedFresh(orig, grown)
    ensures Distinct(grown[|orig|..])
    ensures forall l | l in grown[|orig|..] :: l !in orig
  {
    var added := grown[|orig|..];
    forall i, j | 0 <= i < j < |added|
      ensures added[i] != added[j]
    {
      assert added[i] == grown[|orig| + i];
      assert added[i] in grown[..|orig| + j];
    }
    forall l | l in added
      ensures l !in orig
    {
      var k :| 0 <= k < |added| && added[k] == l;
      assert orig == grown[..|orig|];
      assert grown[..|orig|] <= grown[..|orig| + k];
    }
  }
}
