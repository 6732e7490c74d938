/** What the hierarchy walk adds to Resources and Statements, stated per
    node and folded over the nodes in depth-first order: what stays
    untouched when a flag is off, which resources every node's reference
    brings in, and that nothing else is brought in. */
module WalkProperties {
  import opened SpecIF
  import opened Dicts
  import opened Closure
  import opened Traversal
  import opened MetadataClosure

  // ---------------------------------------------------------------------
  // Flags switched off leave their dictionaries alone

  /** The node references of a list of nodes, in order. */
  function References(ns: seq<Node>): (refs: seq<Key>)
    ensures |refs| <= |ns|
    decreases |ns|
  {
    if ns == [] then []
    else
      var prefix := References(ns[..|ns| - 1]);
      match ns[|ns| - 1].ResourceReference
      case None => prefix
      case Some(ref) => prefix + [ref]
  }

  /** Without metadata no class is added, without statements no statement,
      and without revisions each node reference adds at most one resource. */
  lemma {:induction false} StepsFrames(ctx: Context, acc: Accumulators, ns: seq<Node>)
    requires acc.Valid()
    ensures Steps(ctx, acc, ns).Success? && !ctx.Flags.IncludeMetadata ==> SameMetadata(acc, Steps(ctx, acc, ns).value)
    ensures Steps(ctx, acc, ns).Success? && !ctx.Flags.IncludeStatements ==> Steps(ctx, acc, ns).value.Statements == acc.Statements
    ensures Steps(ctx, acc, ns).Success? && !ctx.Flags.IncludeRevisions ==>
              |Steps(ctx, acc, ns).value.Resources.Order| <= |acc.Resources.Order| + |References(ns)|
    decreases |ns|
  {
    if ns != [] {
      StepsFrames(ctx, acc, ns[..|ns| - 1]);
    }
  }

  // ---------------------------------------------------------------------
  // Growth

  lemma StatementGrows(ctx: Context, acc: Accumulators, s: Statement)
    requires acc.Valid()
    ensures Extends(acc, AddStatement(ctx, acc, s))
    ensures s.OwnKey() in AddStatement(ctx, acc, s).Statements.Entries
  {
    var key := s.OwnKey();
    if !acc.Statements.ContainsKey(key) {
      var withStatement := acc.(Statements := acc.Statements.Add(key, s));
      assert Extends(acc, withStatement);
      if ctx.Flags.IncludeMetadata {
        StatementClassAdded(ctx.Meta, withStatement, s);
        ExtendsTransitive(acc, withStatement, AddStatement(ctx, acc, s));
      }
    } else {
      assert Extends(acc, acc);
    }
  }

  /** Every statement of the list is a key of Statements afterwards. */
  lemma {:induction false} StatementsGrow(ctx: Context, acc: Accumulators, ss: seq<Statement>)
    requires acc.Valid()
    ensures Extends(acc, AddStatements(ctx, acc, ss))
    ensures forall s :: s in ss ==> s.OwnKey() in AddStatements(ctx, acc, ss).Statements.Entries
    decreases |ss|
  {
    if ss == [] {
      assert Extends(acc, acc);
    } else {
      var prefix, last := ss[..|ss| - 1], ss[|ss| - 1];
      var before := AddStatements(ctx, acc, prefix);
      StatementsGrow(ctx, acc, prefix);
      StatementGrows(ctx, before, last);
      ExtendsTransitive(acc, before, AddStatement(ctx, before, last));
      forall s | s in ss
        ensures s.OwnKey() in AddStatements(ctx, acc, ss).Statements.Entries
      {
        if s != last {
          assert s in prefix;
        }
      }
    }
  }

  /** With statements included, every statement the store lists for a stored resource is stored. */
  ghost predicate StatementsComplete(ctx: Context, acc: Accumulators)
  {
    forall k, s :: k in acc.Resources.Entries && s in ctx.Data.GetAllStatementsForResource(k) ==> s.OwnKey() in acc.Statements.Entries
  }

  lemma ResourceGrows(ctx: Context, acc: Accumulators, res: Resource)
    requires acc.Valid()
    ensures AddResource(ctx, acc, res).Success? ==> Extends(acc, AddResource(ctx, acc, res).value)
    ensures AddResource(ctx, acc, res).Success? && ctx.Flags.IncludeStatements ==>
              forall s :: s in ctx.Data.GetAllStatementsForResource(res.OwnKey()) ==> s.OwnKey() in AddResource(ctx, acc, res).value.Statements.Entries
  {
    var key := res.OwnKey();
    if !acc.Resources.ContainsKey(key) {
      var withResource := acc.(Resources := acc.Resources.Add(key, res));
      var withMetadata := if ctx.Flags.IncludeMetadata then MetaForResource(ctx.Meta, withResource, res.Class) else withResource;
      assert Extends(acc, withResource);
      ResourceClassAdded(ctx.Meta, withResource, res.Class);
      ExtendsTransitive(acc, withResource, withMetadata);
      if ctx.Flags.IncludeStatements {
        StatementsGrow(ctx, withMetadata, ctx.Data.GetAllStatementsForResource(key));
        ExtendsTransitive(acc, withMetadata, AddResource(ctx, acc, res).value);
      }
    }
  }

  lemma ResourceKeepsStatementsComplete(ctx: Context, acc: Accumulators, res: Resource)
    requires acc.Valid() && ctx.Flags.IncludeStatements && StatementsComplete(ctx, acc)
    ensures AddResource(ctx, acc, res).Success? ==> StatementsComplete(ctx, AddResource(ctx, acc, res).value)
  {
    if AddResource(ctx, acc, res).Success? {
      var r := AddResource(ctx, acc, res).value;
      ResourceGrows(ctx, acc, res);
      forall k, s | k in r.Resources.Entries && s in ctx.Data.GetAllStatementsForResource(k)
        ensures s.OwnKey() in r.Statements.Entries
      {
        if k != res.OwnKey() {
          assert s.OwnKey() in acc.Statements.Entries;
        }
      }
    }
  }

  /** Each resolved resource ends up stored under its own key; nothing else is added. */
  lemma {:induction false} ResourcesGrow(ctx: Context, acc: Accumulators, rs: seq<Option<Resource>>)
    requires acc.Valid()
    ensures AddResources(ctx, acc, rs).Success? ==> Extends(acc, AddResources(ctx, acc, rs).value)
    ensures AddResources(ctx, acc, rs).Success? ==>
              forall o :: o in rs && o.Some? ==>
                o.value.OwnKey() in AddResources(ctx, acc, rs).value.Resources.Entries &&
                AddResources(ctx, acc, rs).value.Resources.Entries[o.value.OwnKey()] == o.value
    ensures AddResources(ctx, acc, rs).Success? ==>
              forall k :: k in AddResources(ctx, acc, rs).value.Resources.Entries ==>
                k in acc.Resources.Entries || Some(AddResources(ctx, acc, rs).value.Resources.Entries[k]) in rs
    decreases |rs|
  {
    if rs == [] {
      assert Extends(acc, acc);
    } else {
      var prefix, last := rs[..|rs| - 1], rs[|rs| - 1];
      ResourcesGrow(ctx, acc, prefix);
      match AddResources(ctx, acc, prefix)
      case Failure(_) =>
      case Success(before) =>
        if last.Some? && AddResource(ctx, before, last.value).Success? {
          var r := AddResource(ctx, before, last.value).value;
          ResourceGrows(ctx, before, last.value);
          ExtendsTransitive(acc, before, r);
          forall o | o in rs && o.Some?
            ensures o.value.OwnKey() in r.Resources.Entries && r.Resources.Entries[o.value.OwnKey()] == o.value
          {
            if o != last {
              assert o in prefix;
            }
          }
          forall k | k in r.Resources.Entries
            ensures k in acc.Resources.Entries || Some(r.Resources.Entries[k]) in rs
          {
            if k != last.value.OwnKey() {
              assert k in before.Resources.Entries;
            }
          }
        } else if last.None? {
          forall o | o in rs && o.Some?
            ensures o in prefix
          {
          }
        }
    }
  }

  lemma {:induction false} ResourcesKeepStatementsComplete(ctx: Context, acc: Accumulators, rs: seq<Option<Resource>>)
    requires acc.Valid() && ctx.Flags.IncludeStatements && StatementsComplete(ctx, acc)
    ensures AddResources(ctx, acc, rs).Success? ==> StatementsComplete(ctx, AddResources(ctx, acc, rs).value)
    decreases |rs|
  {
    if rs != [] {
      ResourcesKeepStatementsComplete(ctx, acc, rs[..|rs| - 1]);
      match AddResources(ctx, acc, rs[..|rs| - 1])
      case Failure(_) =>
      case Success(before) =>
        if rs[|rs| - 1].Some? {
          ResourceKeepsStatementsComplete(ctx, before, rs[|rs| - 1].value);
        }
    }
  }

  /** Every stored statement is one the store lists for some stored resource. */
  ghost predicate StatementsSound(ctx: Context, acc: Accumulators)
  {
    forall k :: k in acc.Statements.Entries ==>
      exists rk :: rk in acc.Resources.Entries && acc.Statements.Entries[k] in ctx.Data.GetAllStatementsForResource(rk)
  }

  /** The statement loop keeps every stored statement and stores nothing but statements of the list. */
  lemma {:induction false} StatementsFromList(ctx: Context, acc: Accumulators, ss: seq<Statement>)
    requires acc.Valid()
    ensures forall k :: k in AddStatements(ctx, acc, ss).Statements.Entries ==>
              if k in acc.Statements.Entries then AddStatements(ctx, acc, ss).Statements.Entries[k] == acc.Statements.Entries[k]
              else AddStatements(ctx, acc, ss).Statements.Entries[k] in ss
    decreases |ss|
  {
    if ss != [] {
      var prefix, last := ss[..|ss| - 1], ss[|ss| - 1];
      var before := AddStatements(ctx, acc, prefix);
      var r := AddStatement(ctx, before, last);
      assert AddStatements(ctx, acc, ss) == r;
      StatementsFromList(ctx, acc, prefix);
      StatementsGrow(ctx, acc, prefix);
      forall k | k in r.Statements.Entries
        ensures if k in acc.Statements.Entries then r.Statements.Entries[k] == acc.Statements.Entries[k]
                else r.Statements.Entries[k] in ss
      {
        if k == last.OwnKey() && k !in before.Statements.Entries {
          assert r.Statements.Entries[k] == last;
        } else {
          assert k in before.Statements.Entries && r.Statements.Entries[k] == before.Statements.Entries[k];
          if k !in acc.Statements.Entries {
            var x := before.Statements.Entries[k];
            assert x in prefix;
            assert x in ss;
          }
        }
      }
    }
  }

  /** A resource is stored before its statements, so each statement it brings has it as owner. */
  lemma ResourceKeepsStatementsSound(ctx: Context, acc: Accumulators, res: Resource)
    requires acc.Valid() && StatementsSound(ctx, acc)
    ensures AddResource(ctx, acc, res).Success? ==> StatementsSound(ctx, AddResource(ctx, acc, res).value)
  {
    if AddResource(ctx, acc, res).Success? {
      var key := res.OwnKey();
      var r := AddResource(ctx, acc, res).value;
      if ctx.Flags.IncludeStatements {
        var withResource := acc.(Resources := acc.Resources.Add(key, res));
        var withMetadata := if ctx.Flags.IncludeMetadata then MetaForResource(ctx.Meta, withResource, res.Class) else withResource;
        StatementsFromList(ctx, withMetadata, ctx.Data.GetAllStatementsForResource(key));
      }
      forall k | k in r.Statements.Entries
        ensures exists rk :: rk in r.Resources.Entries && r.Statements.Entries[k] in ctx.Data.GetAllStatementsForResource(rk)
      {
        if k in acc.Statements.Entries {
          var rk :| rk in acc.Resources.Entries && acc.Statements.Entries[k] in ctx.Data.GetAllStatementsForResource(rk);
          assert r.Statements.Entries[k] == acc.Statements.Entries[k];
          assert rk in r.Resources.Entries;
        } else {
          assert r.Statements.Entries[k] in ctx.Data.GetAllStatementsForResource(key);
          assert key in r.Resources.Entries;
        }
      }
    }
  }

  lemma {:induction false} ResourcesKeepStatementsSound(ctx: Context, acc: Accumulators, rs: seq<Option<Resource>>)
    requires acc.Valid() && StatementsSound(ctx, acc)
    ensures AddResources(ctx, acc, rs).Success? ==> StatementsSound(ctx, AddResources(ctx, acc, rs).value)
    decreases |rs|
  {
    if rs != [] {
      ResourcesKeepStatementsSound(ctx, acc, rs[..|rs| - 1]);
      match AddResources(ctx, acc, rs[..|rs| - 1])
      case Failure(_) =>
      case Success(before) =>
        if rs[|rs| - 1].Some? {
          ResourceKeepsStatementsSound(ctx, before, rs[|rs| - 1].value);
        }
    }
  }

  /** Over a node sequence, every stored statement keeps a stored owner. */
  lemma {:induction false} StepsKeepStatementsSound(ctx: Context, acc: Accumulators, ns: seq<Node>)
    requires acc.Valid() && StatementsSound(ctx, acc)
    ensures Steps(ctx, acc, ns).Success? ==> StatementsSound(ctx, Steps(ctx, acc, ns).value)
    decreases |ns|
  {
    if ns != [] {
      StepsKeepStatementsSound(ctx, acc, ns[..|ns| - 1]);
      match Steps(ctx, acc, ns[..|ns| - 1])
      case Failure(_) =>
      case Success(before) =>
        var n := ns[|ns| - 1];
        if n.ResourceReference.Some? && n.ResourceReference.value !in before.Resources.Entries
          && ResolveReference(ctx, n.ResourceReference.value).Some?
        {
          ResourcesKeepStatementsSound(ctx, before, ResolveReference(ctx, n.ResourceReference.value).value);
        }
    }
  }

  // ---------------------------------------------------------------------
  // Per node

  /** After a node's step, its reference is a key of Resources, or every
      resource it resolves to is stored under its own key. */
  ghost predicate NodeCovered(ctx: Context, acc: Accumulators, n: Node)
  {
    match n.ResourceReference
    case None => true
    case Some(ref) =>
      ref in acc.Resources.Entries ||
      match ResolveReference(ctx, ref)
      case None => true
      case Some(rs) =>
        forall o :: o in rs && o.Some? ==>
          o.value.OwnKey() in acc.Resources.Entries && acc.Resources.Entries[o.value.OwnKey()] == o.value
  }

  /** The resources a node's reference resolves to. */
  ghost function Resolved(ctx: Context, n: Node): set<Resource>
  {
    match n.ResourceReference
    case None => {}
    case Some(ref) =>
      match ResolveReference(ctx, ref)
      case None => {}
      case Some(rs) => set o | o in rs && o.Some? :: o.value
  }

  ghost function ResolvedAll(ctx: Context, ns: seq<Node>): set<Resource>
    decreases |ns|
  {
    if ns == [] then {} else ResolvedAll(ctx, ns[..|ns| - 1]) + Resolved(ctx, ns[|ns| - 1])
  }

  lemma NodeStaysCovered(ctx: Context, a: Accumulators, b: Accumulators, n: Node)
    requires Extends(a, b) && NodeCovered(ctx, a, n)
    ensures NodeCovered(ctx, b, n)
  {
  }

  lemma NodeGrows(ctx: Context, acc: Accumulators, n: Node)
    requires acc.Valid()
    ensures NodeOwn(ctx, acc, n).Success? ==> Extends(acc, NodeOwn(ctx, acc, n).value)
    ensures NodeOwn(ctx, acc, n).Success? ==> NodeCovered(ctx, NodeOwn(ctx, acc, n).value, n)
    ensures NodeOwn(ctx, acc, n).Success? ==>
              forall k :: k in NodeOwn(ctx, acc, n).value.Resources.Entries ==>
                k in acc.Resources.Entries || NodeOwn(ctx, acc, n).value.Resources.Entries[k] in Resolved(ctx, n)
    ensures NodeOwn(ctx, acc, n).Success? && ctx.Flags.IncludeStatements && StatementsComplete(ctx, acc) ==>
              StatementsComplete(ctx, NodeOwn(ctx, acc, n).value)
  {
    if n.ResourceReference.Some? && n.ResourceReference.value !in acc.Resources.Entries
      && ResolveReference(ctx, n.ResourceReference.value).Some?
    {
      var rs := ResolveReference(ctx, n.ResourceReference.value).value;
      ResourcesGrow(ctx, acc, rs);
      if ctx.Flags.IncludeStatements && StatementsComplete(ctx, acc) {
        ResourcesKeepStatementsComplete(ctx, acc, rs);
      }
    } else {
      assert Extends(acc, acc);
    }
  }

  // ---------------------------------------------------------------------
  // Over the nodes in depth-first order

  /** Every node's reference is covered, everything stored comes from some
      node's reference, and statements stay complete. */
  lemma {:induction false} StepsGrow(ctx: Context, acc: Accumulators, ns: seq<Node>)
    requires acc.Valid()
    ensures Steps(ctx, acc, ns).Success? ==> Extends(acc, Steps(ctx, acc, ns).value)
    ensures Steps(ctx, acc, ns).Success? ==> forall n :: n in ns ==> NodeCovered(ctx, Steps(ctx, acc, ns).value, n)
    ensures Steps(ctx, acc, ns).Success? ==>
              forall k :: k in Steps(ctx, acc, ns).value.Resources.Entries ==>
                k in acc.Resources.Entries || Steps(ctx, acc, ns).value.Resources.Entries[k] in ResolvedAll(ctx, ns)
    ensures Steps(ctx, acc, ns).Success? && ctx.Flags.IncludeStatements && StatementsComplete(ctx, acc) ==>
              StatementsComplete(ctx, Steps(ctx, acc, ns).value)
    decreases |ns|
  {
    if ns == [] {
      assert Extends(acc, acc);
    } else {
      var prefix, last := ns[..|ns| - 1], ns[|ns| - 1];
      StepsGrow(ctx, acc, prefix);
      match Steps(ctx, acc, prefix)
      case Failure(_) =>
      case Success(before) =>
        NodeGrows(ctx, before, last);
        match NodeOwn(ctx, before, last)
        case Failure(_) =>
        case Success(r) =>
          ExtendsTransitive(acc, before, r);
          forall n | n in ns
            ensures NodeCovered(ctx, r, n)
          {
            if n != last {
              assert n in prefix;
              NodeStaysCovered(ctx, before, r, n);
            }
          }
    }
  }
}
