/**
  A worked example checked by the verifier: function A's single block calls
  B twice and an unregistered `print` once.
 */
module Example {
  import opened Wrappers
  import opened Cfg
  import opened Render
  import opened Registry
  import opened Merge

  function ExampleArena(): Arena {
    map[1 := Block("a0", [], [], ["B", "B", "print"]),
        2 := Block("b0", [], [], [])]
  }

  function ExampleEntries(): seq<Registered> {
    [Registered(1, "A", FunctionCfg(1, [1])), Registered(2, "B", FunctionCfg(2, [2]))]
  }

  /** What the reference definitions say about the example. */
  lemma ExampleReference()
    ensures LastNamed(ExampleEntries(), "A") == Some(FunctionCfg(1, [1]))
    ensures LastNamed(ExampleEntries(), "B") == Some(FunctionCfg(2, [2]))
    ensures LastNamed(ExampleEntries(), "print") == None
    ensures CallsTo(ExampleArena(), [1], "B") == 2
    ensures forall reg: Registry | "B" in reg && "print" !in reg && reg["B"].entry == 2 ::
      CrossKeys(ExampleArena(), reg, [1]) == {(1, 2)}
  {
    var calls := ExampleArena()[1].calls;
    assert calls[..2] == ["B", "B"] && calls[..1] == ["B"] && calls[..0] == [];
    assert [1][..0] == [];
    assert Occurrences(calls[..1], "B") == 1;
    assert Occurrences(calls[..2], "B") == 2;
    assert Occurrences(calls, "B") == 2;
    forall reg: Registry | "B" in reg && "print" !in reg && reg["B"].entry == 2
      ensures CrossKeys(ExampleArena(), reg, [1]) == {(1, 2)}
    {
      assert CallKeys(reg, 1, calls[..1]) == {(1, 2)};
      assert CallKeys(reg, 1, calls[..2]) == {(1, 2)};
    }
  }

  method RepeatedCallExample() {
    var entries := ExampleEntries();
    var base := [Put(Node(1, "a0"))];
    var r := GenerateCfg(entries, "A", ExampleArena(), base);
    ExampleReference();
    assert entries[0].name == "A";
    var m := r.value;
    assert entries[1].name == "B";
    assert "print" !in m.registry;
    assert m.registry["B"] == FunctionCfg(2, [2]);
    // two call sites, one cross edge drawn once
    assert m.session.callCounts["B"] == 2;
    assert "print" !in m.session.callCounts;
    assert m.session.edges.Keys == {(1, 2)};
    assert DashedCount(m.session.graph, (1, 2)) == DashedCount(base, (1, 2)) + 1;
  }
}
