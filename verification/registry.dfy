/**
  The name-indexed registry of per-function CFGs built from the external
  builder's `functioncfgs` dictionary, and the lookup of the target CFG
  (iCFG/gene_cfg.py lines 54-57).
 */
module Registry {
  import opened Wrappers
  import opened Cfg

  /** One item of the builder's dictionary: its key, a (block id, function
      name) pair, and the function's CFG. */
  datatype Registered = Registered(blockId: BlockId, name: string, cfg: FunctionCfg)

  /** Bare function name to CFG; a later definition of a name replaces an
      earlier one. */
  type Registry = map<string, FunctionCfg>

  /** Reference definition: the CFG of the last item named `name`. */
  function LastNamed(entries: seq<Registered>, name: string): Option<FunctionCfg> {
    if entries == [] then None
    else if entries[|entries| - 1].name == name then Some(entries[|entries| - 1].cfg)
    else LastNamed(entries[..|entries| - 1], name)
  }

  /** A name resolves exactly when some item carries it, and then to the CFG
      of the last such item. */
  lemma {:induction false} LastNamedFound(entries: seq<Registered>, name: string)
    ensures LastNamed(entries, name).Some? <==> exists i | 0 <= i < |entries| :: entries[i].name == name
    ensures LastNamed(entries, name).Some? ==>
      exists i | 0 <= i < |entries| ::
        && entries[i].name == name
        && entries[i].cfg == LastNamed(entries, name).value
        && forall j | i < j < |entries| :: entries[j].name != name
  {
    if entries != [] {
      var n := |entries| - 1;
      var init := entries[..n];
      LastNamedFound(init, name);
      if entries[n].name != name {
        if LastNamed(init, name).Some? {
          var i :| 0 <= i < |init| && init[i].name == name && init[i].cfg == LastNamed(init, name).value
                   && forall j | i < j < |init| :: init[j].name != name;
          assert entries[i] == init[i];
        }
        if exists i | 0 <= i < |entries| :: entries[i].name == name {
          var i :| 0 <= i < |entries| && entries[i].name == name;
          assert init[i] == entries[i];
        }
      }
    }
  }

  /** Builds the registry and picks out the target CFG in one pass over the
      builder's items. */
  method Build(entries: seq<Registered>, target: string) returns (reg: Registry, targetCfg: Option<FunctionCfg>)
    ensures forall n :: n in reg <==> exists i | 0 <= i < |entries| :: entries[i].name == n
    ensures forall n | n in reg :: Some(reg[n]) == LastNamed(entries, n)
    ensures targetCfg == LastNamed(entries, target)
    ensures targetCfg.Some? <==> exists i | 0 <= i < |entries| :: entries[i].name == target
  {
    reg := map[];
    targetCfg := None;
    for i := 0 to |entries|
      invariant forall n :: n in reg <==> LastNamed(entries[..i], n).Some?
      invariant forall n | n in reg :: Some(reg[n]) == LastNamed(entries[..i], n)
      invariant targetCfg == LastNamed(entries[..i], target)
    {
      assert entries[..i + 1][..i] == entries[..i];
      reg := reg[entries[i].name := entries[i].cfg];
      if entries[i].name == target {
        targetCfg := Some(entries[i].cfg);
      }
    }
    assert entries[..|entries|] == entries;
    forall n
      ensures n in reg <==> exists i | 0 <= i < |entries| :: entries[i].name == n
    {
      LastNamedFound(entries, n);
    }
    LastNamedFound(entries, target);
  }

  /** Every registered CFG is one of the builder's items. */
  lemma {:induction false} LastNamedIsEntry(entries: seq<Registered>, name: string)
    requires LastNamed(entries, name).Some?
    ensures exists i | 0 <= i < |entries| :: entries[i].cfg == LastNamed(entries, name).value
  {
    LastNamedFound(entries, name);
  }
}
