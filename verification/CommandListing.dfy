/**
 What a published catalog lists, told from the registered descriptors: which of them, in which order, and
 which of their aliases.
*/
module CommandListing {
  import opened Wrappers
  import opened Graphs
  import opened CommandRegistry

  ghost predicate IsRegistered(byId: map<string, Descriptor>, d: Descriptor) {
    exists id :: id in byId && byId[id] == d
  }

  /** The client may use it: it grants everything the descriptor asks for. */
  ghost predicate Granted(b: Binding, d: Descriptor) {
    (forall c :: c in d.capabilities ==> c in b.capabilityIds) && (d.requiresWorkspaceTrust ==> b.workspaceTrusted)
  }

  ghost predicate OthersHave(entries: seq<Entry>, i: nat, alias: string) {
    exists j :: 0 <= j < |entries| && j != i && alias in entries[j].descriptor.aliases
  }

  ghost predicate FromWorkspace(source: Source) {
    source.Prompt? || source.Skill?
  }

  /** Builtin commands come first, then those of the workspace, then those of extensions. */
  ghost predicate LayeredAs(e: Entry) {
    && (e.layer.BuiltinLayer? <==> e.descriptor.source.Builtin?)
    && (e.layer.WorkspaceLayer? <==> FromWorkspace(e.descriptor.source))
    && (e.layer.ExtensionLayer? <==> e.descriptor.source.Plugin? || e.descriptor.source.Mcp?)
  }

  ghost predicate InLayers(a: Entry, b: Entry) {
    && (b.layer.BuiltinLayer? ==> a.layer.BuiltinLayer?)
    && (a.layer.ExtensionLayer? ==> b.layer.ExtensionLayer?)
  }

  /** `some` are members of `all` in the same order. */
  ghost predicate SameOrder(some: seq<string>, all: seq<string>) {
    forall i, j, k, l :: 0 <= i < j < |some| && 0 <= k < |all| && 0 <= l < |all| && all[k] == some[i] && all[l] == some[j] ==>
      k < l
  }

  /** Where a descriptor of each kind may come from; nothing is listed in it twice. */
  lemma SoundExactly(d: Descriptor)
    ensures DescriptorValid(d) <==>
      && (forall i, j :: 0 <= i < j < |d.aliases| ==> d.aliases[i] != d.aliases[j])
      && (forall i, j :: 0 <= i < j < |d.capabilities| ==> d.capabilities[i] != d.capabilities[j])
      && match d.kind
         case PromptTemplate => d.source.Builtin? || d.source.Prompt?
         case SkillInvocation => d.source.Builtin? || d.source.Skill?
         case Workflow => d.source.Builtin? || d.source.Plugin? || d.source.Mcp?
         case _ => d.source.Builtin?
  {
  }

  ghost predicate TwoHaveCommand(entries: seq<Entry>, name: string) {
    exists i, j :: 0 <= i < j < |entries| && entries[i].descriptor.command == name && entries[j].descriptor.command == name
  }

  ghost predicate TwoHaveAlias(entries: seq<Entry>, name: string) {
    exists i, j :: 0 <= i < j < |entries| && name in entries[i].descriptor.aliases && name in entries[j].descriptor.aliases
  }

  lemma TwoListed(indexes: seq<int>, n: nat)
    requires Distinct(indexes) && |indexes| > 1 && forall k :: k in indexes ==> 0 <= k < n
    ensures exists i, j :: 0 <= i < j < n && i in indexes && j in indexes
  {
    var a, b := indexes[0], indexes[1];
    assert a in indexes && b in indexes && a != b;
    if a < b {
      assert 0 <= a < b < n;
    } else {
      assert 0 <= b < a < n;
    }
  }

  lemma ConflictExactly(entries: seq<Entry>, name: string)
    ensures |Matching(entries, |entries|, name)| > 1 <==> TwoHaveCommand(entries, name)
    ensures Matching(entries, |entries|, name) != [] <==> NamesCommand(entries, name)
  {
    var exact := Matching(entries, |entries|, name);
    MatchingDistinct(entries, |entries|, name);
    if |exact| > 1 {
      TwoListed(exact, |entries|);
    }
    if TwoHaveCommand(entries, name) {
      var i, j :| 0 <= i < j < |entries| && entries[i].descriptor.command == name && entries[j].descriptor.command == name;
      SharedCommandConflicts(entries, name, i, j);
    }
    if exact != [] {
      assert exact[0] in exact;
      assert entries[exact[0]].descriptor.command == name;
    }
    if NamesCommand(entries, name) {
      var i :| 0 <= i < |entries| && entries[i].descriptor.command == name;
      assert i in exact;
    }
  }

  lemma AmbiguousExactly(entries: seq<Entry>, name: string)
    ensures |AliasOwners(entries, |entries|, name)| > 1 <==> TwoHaveAlias(entries, name)
  {
    var owners := AliasOwners(entries, |entries|, name);
    OwnersDistinct(entries, |entries|, name);
    if |owners| > 1 {
      TwoListed(owners, |entries|);
    }
    if TwoHaveAlias(entries, name) {
      var i, j :| 0 <= i < j < |entries| && name in entries[i].descriptor.aliases && name in entries[j].descriptor.aliases;
      assert i in owners && j in owners;
    }
  }

  /**
   A name that resolves to nothing is a conflict if two entries have it as their command, ambiguous if nobody has and
   two have it as an alias, and unknown otherwise.
  */
  lemma UnresolvedExactly(entries: seq<Entry>, name: string)
    ensures Resolve(entries, name) == Err(CatalogConflict) <==> TwoHaveCommand(entries, name)
    ensures Resolve(entries, name) == Err(Ambiguous) <==> !NamesCommand(entries, name) && TwoHaveAlias(entries, name)
    ensures Resolve(entries, name).Err? ==> Resolve(entries, name).error in {CatalogConflict, Ambiguous, CommandUnknown}
  {
    ConflictExactly(entries, name);
    AmbiguousExactly(entries, name);
  }

  lemma {:induction false} SomeOwner(ds: seq<Descriptor>, n: nat, alias: string) returns (i: nat)
    requires n <= |ds| && Owners(ds, n, alias) >= 1
    ensures i < n && alias in ds[i].aliases
  {
    if alias in ds[n - 1].aliases {
      i := n - 1;
    } else {
      i := SomeOwner(ds, n - 1, alias);
    }
  }

  lemma {:induction false} TwoOwners(ds: seq<Descriptor>, n: nat, alias: string) returns (i: nat, j: nat)
    requires n <= |ds| && Owners(ds, n, alias) >= 2
    ensures i < j < n && alias in ds[i].aliases && alias in ds[j].aliases
  {
    if alias in ds[n - 1].aliases {
      i := SomeOwner(ds, n - 1, alias);
      j := n - 1;
    } else {
      i, j := TwoOwners(ds, n - 1, alias);
    }
  }

  /** An alias of a listed descriptor is owned once exactly if no other one has it. */
  lemma OwnedOnce(ds: seq<Descriptor>, i: nat, alias: string)
    requires i < |ds| && alias in ds[i].aliases
    ensures Owners(ds, |ds|, alias) == 1 <==> forall j :: 0 <= j < |ds| && j != i ==> alias !in ds[j].aliases
  {
    OwnersAtLeast(ds, |ds|, alias, i);
    if Owners(ds, |ds|, alias) >= 2 {
      var a, b := TwoOwners(ds, |ds|, alias);
      assert a != i || b != i;
    }
    if j :| 0 <= j < |ds| && j != i && alias in ds[j].aliases {
      if i < j {
        OwnedTwice(ds, |ds|, alias, i, j);
      } else {
        OwnedTwice(ds, |ds|, alias, j, i);
      }
    }
  }

  lemma {:induction false} AvailableExactly(ds: seq<Descriptor>, reserved: set<string>, aliases: seq<string>, alias: string)
    ensures alias in Available(ds, reserved, aliases)
       <==> alias in aliases && alias !in reserved && Owners(ds, |ds|, alias) == 1
  {
    if aliases != [] {
      var n := |aliases| - 1;
      AvailableExactly(ds, reserved, aliases[..n], alias);
      assert aliases == aliases[..n] + [aliases[n]];
    }
  }

  lemma {:induction false} AvailableInOrder(ds: seq<Descriptor>, reserved: set<string>, aliases: seq<string>)
    requires Distinct(aliases)
    ensures SameOrder(Available(ds, reserved, aliases), aliases)
  {
    if aliases != [] {
      var n := |aliases| - 1;
      AvailableInOrder(ds, reserved, aliases[..n]);
      var rest, all := Available(ds, reserved, aliases[..n]), Available(ds, reserved, aliases);
      forall i, j, k, l | 0 <= i < j < |all| && 0 <= k < |aliases| && 0 <= l < |aliases|
        && aliases[k] == all[i] && aliases[l] == all[j]
        ensures k < l
      {
        AvailableExactly(ds, reserved, aliases[..n], all[i]);
        assert all[i] == rest[i] && rest[i] in rest;
        assert k < n;
        if j < |rest| && l < n {
          assert aliases[..n][k] == rest[i] && aliases[..n][l] == rest[j];
        } else if j < |rest| {
          assert k < l;
        } else {
          assert aliases[l] == aliases[n];
        }
      }
    }
  }

  /**
   The catalog published under a binding lists exactly the registered descriptors that it grants, each once; layer by
   layer and by name within a layer; and of each, in their order, the aliases that are neither reserved nor had by
   another listed descriptor.
  */
  lemma CatalogLists(precedes: Collation, byId: map<string, Descriptor>, binding: Binding, ds: seq<Descriptor>, reserved: set<string>)
    requires Lists(precedes, ds, OfferedOf(byId, binding))
    requires forall id :: id in byId ==> Distinct(byId[id].aliases)
    ensures var entries := EntriesFor(ds, reserved);
      && (forall d :: (exists i :: 0 <= i < |entries| && entries[i].descriptor == d) <==> IsRegistered(byId, d) && Granted(binding, d))
      && (forall i, j :: 0 <= i < j < |entries| ==>
            && entries[i].descriptor != entries[j].descriptor && InLayers(entries[i], entries[j])
            && (entries[i].layer == entries[j].layer ==>
                  !precedes(entries[j].descriptor.command, entries[i].descriptor.command)))
      && (forall i :: 0 <= i < |entries| ==>
            && LayeredAs(entries[i])
            && SameOrder(entries[i].availableAliases, entries[i].descriptor.aliases)
            && forall alias :: alias in entries[i].availableAliases <==>
                 alias in entries[i].descriptor.aliases && alias !in reserved && !OthersHave(entries, i, alias))
  {
    var entries := EntriesFor(ds, reserved);
    forall d ensures (exists i :: 0 <= i < |entries| && entries[i].descriptor == d) <==> IsRegistered(byId, d) && Granted(binding, d) {
      ListedExactly(precedes, byId, binding, ds, reserved, d);
    }
    forall i, j | 0 <= i < j < |entries|
      ensures entries[i].descriptor != entries[j].descriptor && InLayers(entries[i], entries[j])
      ensures entries[i].layer == entries[j].layer ==> !precedes(entries[j].descriptor.command, entries[i].descriptor.command)
    {
      assert !Before(precedes, ds[j], ds[i]);
    }
    forall i | 0 <= i < |entries|
      ensures LayeredAs(entries[i]) && SameOrder(entries[i].availableAliases, entries[i].descriptor.aliases)
      ensures forall alias :: alias in entries[i].availableAliases <==>
        alias in entries[i].descriptor.aliases && alias !in reserved && !OthersHave(entries, i, alias)
    {
      assert ds[i] in Elements(ds);
      AvailableInOrder(ds, reserved, ds[i].aliases);
      forall alias ensures alias in entries[i].availableAliases <==>
        alias in ds[i].aliases && alias !in reserved && !OthersHave(entries, i, alias)
      {
        OfferedAliases(ds, reserved, i, alias);
      }
    }
  }

  lemma OfferedAliases(ds: seq<Descriptor>, reserved: set<string>, i: nat, alias: string)
    requires i < |ds|
    ensures var entries := EntriesFor(ds, reserved);
      alias in entries[i].availableAliases <==> alias in ds[i].aliases && alias !in reserved && !OthersHave(entries, i, alias)
  {
    var entries := EntriesFor(ds, reserved);
    AvailableExactly(ds, reserved, ds[i].aliases, alias);
    if alias in ds[i].aliases {
      OwnedOnce(ds, i, alias);
      assert OthersHave(entries, i, alias) <==> exists j :: 0 <= j < |ds| && j != i && alias in ds[j].aliases by {
        if j :| 0 <= j < |ds| && j != i && alias in ds[j].aliases {
          assert alias in entries[j].descriptor.aliases;
        }
      }
    }
  }

  lemma GrantedExactly(b: Binding, d: Descriptor)
    ensures Offered(b, d) <==> Granted(b, d)
  {
    if Offered(b, d) {
      forall c | c in d.capabilities ensures c in b.capabilityIds {
        var k :| 0 <= k < |d.capabilities| && d.capabilities[k] == c;
      }
    }
  }

  lemma ListedExactly(precedes: Collation, byId: map<string, Descriptor>, binding: Binding, ds: seq<Descriptor>,
                      reserved: set<string>, d: Descriptor)
    requires Lists(precedes, ds, OfferedOf(byId, binding))
    ensures (exists i :: 0 <= i < |EntriesFor(ds, reserved)| && EntriesFor(ds, reserved)[i].descriptor == d)
       <==> IsRegistered(byId, d) && Granted(binding, d)
  {
    GrantedExactly(binding, d);
    assert d in Elements(ds) <==> d in OfferedOf(byId, binding);
    if d in Elements(ds) {
      var i :| 0 <= i < |ds| && ds[i] == d;
      assert EntriesFor(ds, reserved)[i].descriptor == d;
    }
    if i :| 0 <= i < |EntriesFor(ds, reserved)| && EntriesFor(ds, reserved)[i].descriptor == d {
      assert ds[i] == d && ds[i] in Elements(ds);
    }
  }
}
