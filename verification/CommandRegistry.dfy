/**
 The command registry and the catalogs it publishes: what a catalog validator accepts, and how a command
 name is resolved.
*/
module CommandRegistry {
  import opened Wrappers
  import opened Graphs

  datatype Owner = Client | Runtime

  datatype Kind = ClientLocal | RuntimeQuery | RuntimeMutation | PromptTemplate | SkillInvocation | Workflow

  datatype Source = Builtin | Prompt | Skill | Plugin | Mcp

  datatype Layer = BuiltinLayer | WorkspaceLayer | ExtensionLayer

  datatype Descriptor = Descriptor(
    id: string,
    command: string,
    aliases: seq<string>,
    kind: Kind,
    source: Source,
    capabilities: seq<string>,
    requiresWorkspaceTrust: bool)

  datatype Entry = Entry(layer: Layer, descriptor: Descriptor, availableAliases: seq<string>)

  datatype Binding = Binding(workspaceTrusted: bool, capabilityIds: seq<string>)

  datatype Catalog = Catalog(owner: Owner, binding: Binding, entries: seq<Entry>)

  datatype CommandError =
    | DescriptorInvalid | OwnerViolation | Collision | ReservedCollision | BindingInvalid
    | CatalogConflict | Ambiguous | CommandUnknown

  const MAX_ENTRIES := 512

  const RESERVED_COMMAND_NAMES: set<string> :=
    {"new", "resume", "session", "provider", "login", "logout", "model", "compact", "context", "plan",
     "artifacts", "copy", "export", "doctor"}

  /** How the platform collates command names: whether the first comes before the second. */
  type Collation = (string, string) -> bool

  // ---------- Descriptors ----------

  predicate KindMatchesSource(kind: Kind, source: Source) {
    if kind.ClientLocal? then source.Builtin?
    else
      match source
      case Prompt => kind.PromptTemplate?
      case Skill => kind.SkillInvocation?
      case Plugin => kind.Workflow?
      case Mcp => kind.Workflow?
      case Builtin => true
  }

  predicate DescriptorValid(d: Descriptor) {
    Distinct(d.aliases) && Distinct(d.capabilities) && KindMatchesSource(d.kind, d.source)
  }

  predicate OwnerAllows(owner: Owner, d: Descriptor) {
    owner.Client? <==> d.kind.ClientLocal?
  }

  function LayerFor(source: Source): Layer {
    match source
    case Builtin => BuiltinLayer
    case Prompt => WorkspaceLayer
    case Skill => WorkspaceLayer
    case _ => ExtensionLayer
  }

  function LayerOrder(layer: Layer): nat {
    match layer
    case BuiltinLayer => 0
    case WorkspaceLayer => 1
    case ExtensionLayer => 2
  }

  /** Whether one descriptor is listed before another: by layer, then by name. */
  predicate Before(precedes: Collation, a: Descriptor, b: Descriptor) {
    var la, lb := LayerOrder(LayerFor(a.source)), LayerOrder(LayerFor(b.source));
    la < lb || (la == lb && precedes(a.command, b.command))
  }

  // ---------- Snapshots ----------

  predicate BindingValid(b: Binding) {
    Distinct(b.capabilityIds)
  }

  predicate Offered(b: Binding, d: Descriptor) {
    && (forall i :: 0 <= i < |d.capabilities| ==> d.capabilities[i] in b.capabilityIds)
    && (d.requiresWorkspaceTrust ==> b.workspaceTrusted)
  }

  /** How many of the first `n` descriptors have the alias. */
  function Owners(ds: seq<Descriptor>, n: nat, alias: string): nat
    requires n <= |ds|
  {
    if n == 0 then 0 else Owners(ds, n - 1, alias) + (if alias in ds[n - 1].aliases then 1 else 0)
  }

  function Available(ds: seq<Descriptor>, reserved: set<string>, aliases: seq<string>): seq<string> {
    if aliases == [] then []
    else
      var n := |aliases| - 1;
      var rest := Available(ds, reserved, aliases[..n]);
      if aliases[n] !in reserved && Owners(ds, |ds|, aliases[n]) == 1 then rest + [aliases[n]] else rest
  }

  function EntryFor(ds: seq<Descriptor>, reserved: set<string>, d: Descriptor): Entry {
    Entry(LayerFor(d.source), d, Available(ds, reserved, d.aliases))
  }

  function EntriesFor(ds: seq<Descriptor>, reserved: set<string>): (r: seq<Entry>)
    ensures |r| == |ds| && forall i :: 0 <= i < |r| ==> r[i] == EntryFor(ds, reserved, ds[i])
  {
    seq(|ds|, i requires 0 <= i < |ds| => EntryFor(ds, reserved, ds[i]))
  }

  predicate Ascends(precedes: Collation, ds: seq<Descriptor>) {
    forall i, j :: 0 <= i < j < |ds| ==> !Before(precedes, ds[j], ds[i])
  }

  /** A sequence that lists exactly these descriptors, each once, in order. */
  predicate Lists(precedes: Collation, ds: seq<Descriptor>, all: set<Descriptor>) {
    Ascends(precedes, ds) && Distinct(ds) && Elements(ds) == all
  }

  class CommandRegistry {
    const owner: Owner
    const reserved: set<string>
    var byId: map<string, Descriptor>
    var byCommand: map<string, Descriptor>

    constructor (owner: Owner, reserved: set<string>)
      ensures this.owner == owner && this.reserved == reserved && byId == map[] && Valid()
    {
      this.owner := owner;
      this.reserved := reserved;
      byId, byCommand := map[], map[];
    }

    /** Both maps hold the same descriptors, each under its own id and its own command. */
    ghost predicate Valid()
      reads this
    {
      && (forall id :: id in byId ==>
            byId[id].id == id && byId[id].command in byCommand && byCommand[byId[id].command] == byId[id])
      && (forall c :: c in byCommand ==>
            byCommand[c].command == c && byCommand[c].id in byId && byId[byCommand[c].id] == byCommand[c])
      && (forall id :: id in byId ==> DescriptorValid(byId[id]) && OwnerAllows(owner, byId[id]))
    }

    /** A descriptor is registered unless it is malformed, foreign, taken or claims a reserved alias. */
    method Register(d: Descriptor) returns (r: Result<(), CommandError>)
      requires Valid()
      modifies this
      ensures Valid()
      ensures r.Ok? <==>
        && DescriptorValid(d) && OwnerAllows(owner, d)
        && Free(old(byId), d)
        && (d.source.Builtin? || forall i :: 0 <= i < |d.aliases| ==> d.aliases[i] !in reserved)
      ensures byId == if r.Ok? then old(byId)[d.id := d] else old(byId)
      ensures r.Err? ==>
        r.error == (if !DescriptorValid(d) then DescriptorInvalid
                    else if !OwnerAllows(owner, d) then OwnerViolation
                    else if !Free(old(byId), d) then Collision
                    else ReservedCollision)
    {
      if !DescriptorValid(d) {
        return Err(DescriptorInvalid);
      }
      if !OwnerAllows(owner, d) {
        return Err(OwnerViolation);
      }
      if d.id in byId || d.command in byCommand {
        return Err(Collision);
      }
      if !d.source.Builtin? && exists i :: 0 <= i < |d.aliases| && d.aliases[i] in reserved {
        return Err(ReservedCollision);
      }
      byId := byId[d.id := d];
      byCommand := byCommand[d.command := d];
      r := Ok(());
    }

    /** The registered descriptors that the binding allows, in order. */
    method SortOffered(binding: Binding, precedes: Collation) returns (ds: seq<Descriptor>)
      requires Valid() && WeakOrder(precedes)
      ensures Lists(precedes, ds, OfferedOf(byId, binding))
    {
      ds := [];
      var rest := byId.Keys;
      while rest != {}
        invariant rest <= byId.Keys
        invariant Ascends(precedes, ds) && Distinct(ds)
        invariant forall d :: d in ds <==> d.id in byId && d.id !in rest && byId[d.id] == d && Offered(binding, d)
        decreases rest
      {
        var id :| id in rest;
        var d := byId[id];
        if Offered(binding, d) {
          InsertKeepsOrder(precedes, ds, d);
          ds := Insert(precedes, ds, d);
        }
        rest := rest - {id};
      }
      assert Elements(ds) == OfferedOf(byId, binding);
    }

    /** The catalog of everything the binding allows, in order, with the aliases that are free and unambiguous. */
    method Snapshot(binding: Binding, precedes: Collation) returns (r: Result<Catalog, CommandError>, ghost ds: seq<Descriptor>)
      requires Valid() && WeakOrder(precedes)
      ensures r.Ok? <==> BindingValid(binding)
      ensures r.Ok? ==>
        && Lists(precedes, ds, OfferedOf(byId, binding))
        && r.value == Catalog(owner, binding, EntriesFor(ds, reserved))
    {
      if !BindingValid(binding) {
        return Err(BindingInvalid), [];
      }
      var sorted := SortOffered(binding, precedes);
      ds := sorted;
      OfferedAreValid(binding, precedes, ds);
      var owners := CountAliases(sorted);
      var entries: seq<Entry> := [];
      for k := 0 to |sorted|
        invariant |entries| == k && forall i :: 0 <= i < k ==> entries[i] == EntryFor(sorted, reserved, sorted[i])
      {
        var aliases := FreeAliases(sorted, owners, sorted[k].aliases);
        entries := entries + [Entry(LayerFor(sorted[k].source), sorted[k], aliases)];
      }
      assert entries == EntriesFor(sorted, reserved);
      r := Ok(Catalog(owner, binding, entries));
    }

    lemma OfferedAreValid(binding: Binding, precedes: Collation, ds: seq<Descriptor>)
      requires Valid() && Lists(precedes, ds, OfferedOf(byId, binding))
      ensures forall i :: 0 <= i < |ds| ==> DescriptorValid(ds[i]) && OwnerAllows(owner, ds[i]) && Offered(binding, ds[i])
      ensures forall i :: 0 <= i < |ds| ==> ds[i].id in byId && byId[ds[i].id] == ds[i]
    {
      forall i | 0 <= i < |ds| ensures ds[i] in OfferedOf(byId, binding) {
        assert ds[i] in Elements(ds);
      }
    }

    /**
     A published catalog passes the validator exactly if it is not too long and lists no reserved alias;
     with the reserved names in force it lists none.
    */
    lemma SnapshotPasses(binding: Binding, precedes: Collation, ds: seq<Descriptor>)
      requires Valid() && BindingValid(binding) && Lists(precedes, ds, OfferedOf(byId, binding))
      ensures var c := Catalog(owner, binding, EntriesFor(ds, reserved));
        && (CatalogValid(precedes, c) <==>
              |ds| <= 512 && forall i :: 0 <= i < |c.entries| ==> NotReserved(c.entries[i]))
        && (RESERVED_COMMAND_NAMES <= reserved ==> forall i :: 0 <= i < |c.entries| ==> NotReserved(c.entries[i]))
    {
      var c := Catalog(owner, binding, EntriesFor(ds, reserved));
      OfferedAreValid(binding, precedes, ds);
      forall i | 0 <= i < |ds| ensures EntryValid(c, c.entries[i]) {
        AvailableIsFree(ds, reserved, ds[i].aliases);
      }
      forall i | 0 <= i < |ds| && RESERVED_COMMAND_NAMES <= reserved ensures NotReserved(c.entries[i]) {
        AvailableIsFree(ds, reserved, ds[i].aliases);
      }
      forall i, j | 0 <= i < j < |ds| ensures ds[i].id != ds[j].id && ds[i].command != ds[j].command {
        DifferentDescriptors(ds, i, j);
      }
      FreeIsUnshared(ds, reserved);
    }

    lemma DifferentDescriptors(ds: seq<Descriptor>, i: nat, j: nat)
      requires Valid() && Distinct(ds) && i < j < |ds|
      requires forall k :: 0 <= k < |ds| ==> ds[k].id in byId && byId[ds[k].id] == ds[k]
      ensures ds[i].id != ds[j].id && ds[i].command != ds[j].command
    {
      assert ds[i] != ds[j];
      assert byCommand[ds[i].command] == ds[i] && byCommand[ds[j].command] == ds[j];
    }

    /** Registers descriptors one after the other, as long as none of them is refused. */
    method RegisterAll(ds: seq<Descriptor>) returns (ok: bool)
      requires Valid() && byId == map[]
      modifies this
      ensures Valid()
      ensures ok <==> forall i :: 0 <= i < |ds| ==> Acceptable(owner, reserved, ds, i)
      ensures ok ==> byId == ById(ds, |ds|)
    {
      for k := 0 to |ds|
        invariant Valid() && byId == ById(ds, k)
        invariant forall i :: 0 <= i < k ==> Acceptable(owner, reserved, ds, i)
        invariant IdsDiffer(ds, k)
      {
        FreeOfEarlier(ds, k);
        var r := Register(ds[k]);
        if r.Err? {
          assert !Acceptable(owner, reserved, ds, k);
          return false;
        }
      }
      ok := true;
    }

    /** Counts, alias by alias, the descriptors that have it. */
    method CountAliases(ds: seq<Descriptor>) returns (owners: map<string, nat>)
      requires forall i :: 0 <= i < |ds| ==> Distinct(ds[i].aliases)
      ensures forall alias :: Counted(owners, alias) == Owners(ds, |ds|, alias)
    {
      owners := map[];
      for k := 0 to |ds|
        invariant forall alias :: Counted(owners, alias) == Owners(ds, k, alias)
      {
        var aliases := ds[k].aliases;
        for j := 0 to |aliases|
          invariant forall alias :: Counted(owners, alias) == Owners(ds, k, alias) + (if alias in aliases[..j] then 1 else 0)
        {
          assert aliases[..j + 1] == aliases[..j] + [aliases[j]];
          assert aliases[j] !in aliases[..j];
          owners := owners[aliases[j] := Counted(owners, aliases[j]) + 1];
        }
        assert aliases[..|aliases|] == aliases;
      }
    }

    method FreeAliases(ds: seq<Descriptor>, owners: map<string, nat>, aliases: seq<string>) returns (free: seq<string>)
      requires forall alias :: Counted(owners, alias) == Owners(ds, |ds|, alias)
      ensures free == Available(ds, reserved, aliases)
    {
      free := [];
      for k := 0 to |aliases|
        invariant free == Available(ds, reserved, aliases[..k])
      {
        assert aliases[..k + 1][..k] == aliases[..k];
        assert Counted(owners, aliases[k]) == Owners(ds, |ds|, aliases[k]);
        if aliases[k] !in reserved && Counted(owners, aliases[k]) == 1 {
          free := free + [aliases[k]];
        }
      }
      assert aliases[..|aliases|] == aliases;
    }
  }

  function Counted(owners: map<string, nat>, alias: string): nat {
    if alias in owners then owners[alias] else 0
  }

  /** What sorting asks of a collation: names that it does not tell apart compare alike with all others. */
  ghost predicate WeakOrder(precedes: Collation) {
    && (forall a :: !precedes(a, a))
    && (forall a, b, c :: precedes(a, b) && precedes(b, c) ==> precedes(a, c))
    && (forall a, b, c :: precedes(a, c) ==> precedes(a, b) || precedes(b, c))
  }

  /** The collation tells any two names apart. */
  ghost predicate TotalOrder(precedes: Collation) {
    WeakOrder(precedes) && forall a, b :: a != b ==> precedes(a, b) || precedes(b, a)
  }

  function OfferedOf(byId: map<string, Descriptor>, binding: Binding): set<Descriptor> {
    set id | id in byId && Offered(binding, byId[id]) :: byId[id]
  }

  function Insert(precedes: Collation, ds: seq<Descriptor>, d: Descriptor): seq<Descriptor> {
    if ds == [] then [d]
    else if Before(precedes, d, ds[0]) then [d] + ds
    else [ds[0]] + Insert(precedes, ds[1..], d)
  }

  lemma BeforeAll(precedes: Collation, ds: seq<Descriptor>, d: Descriptor)
    requires WeakOrder(precedes) && ds != [] && Before(precedes, d, ds[0])
    requires forall i :: 0 < i < |ds| ==> !Before(precedes, ds[i], ds[0])
    ensures forall i :: 0 <= i < |ds| ==> !Before(precedes, ds[i], d)
  {
  }

  lemma PrependKeepsOrder(precedes: Collation, d: Descriptor, ds: seq<Descriptor>)
    requires Ascends(precedes, ds) && Distinct(ds) && d !in ds
    requires forall i :: 0 <= i < |ds| ==> !Before(precedes, ds[i], d)
    ensures Ascends(precedes, [d] + ds) && Distinct([d] + ds)
  {
  }

  lemma TailKeepsOrder(precedes: Collation, ds: seq<Descriptor>)
    requires ds != [] && Ascends(precedes, ds) && Distinct(ds)
    ensures Ascends(precedes, ds[1..]) && Distinct(ds[1..])
    ensures forall x :: x in ds[1..] ==> x in ds && x != ds[0] && !Before(precedes, x, ds[0])
    ensures forall x :: x in ds ==> x == ds[0] || x in ds[1..]
  {
    assert ds == [ds[0]] + ds[1..];
    forall x | x in ds[1..] ensures x != ds[0] && !Before(precedes, x, ds[0]) {
      var j :| 0 <= j < |ds[1..]| && ds[1..][j] == x;
      assert ds[j + 1] == x;
    }
  }

  lemma {:induction false} InsertKeepsOrder(precedes: Collation, ds: seq<Descriptor>, d: Descriptor)
    requires WeakOrder(precedes) && Ascends(precedes, ds) && Distinct(ds) && d !in ds
    ensures Ascends(precedes, Insert(precedes, ds, d)) && Distinct(Insert(precedes, ds, d))
    ensures forall x :: x in Insert(precedes, ds, d) <==> x in ds || x == d
  {
    if ds != [] {
      if Before(precedes, d, ds[0]) {
        BeforeAll(precedes, ds, d);
        PrependKeepsOrder(precedes, d, ds);
      } else {
        var rest := Insert(precedes, ds[1..], d);
        TailKeepsOrder(precedes, ds);
        InsertKeepsOrder(precedes, ds[1..], d);
        assert forall i :: 0 <= i < |rest| ==> rest[i] in rest;
        PrependKeepsOrder(precedes, ds[0], rest);
      }
    }
  }

  /** The available aliases are distinct aliases of the descriptor, not reserved, each owned once. */
  lemma {:induction false} AvailableIsFree(ds: seq<Descriptor>, reserved: set<string>, aliases: seq<string>)
    requires Distinct(aliases)
    ensures var free := Available(ds, reserved, aliases);
      && Distinct(free)
      && forall i :: 0 <= i < |free| ==> free[i] in aliases && free[i] !in reserved && Owners(ds, |ds|, free[i]) == 1
  {
    if aliases != [] {
      var n := |aliases| - 1;
      AvailableIsFree(ds, reserved, aliases[..n]);
      var rest := Available(ds, reserved, aliases[..n]);
      assert forall i :: 0 <= i < |rest| ==> rest[i] in aliases[..n] && rest[i] != aliases[n];
    }
  }

  lemma {:induction false} OwnersAtLeast(ds: seq<Descriptor>, n: nat, alias: string, i: nat)
    requires i < n <= |ds| && alias in ds[i].aliases
    ensures Owners(ds, n, alias) >= 1
  {
    if i < n - 1 {
      OwnersAtLeast(ds, n - 1, alias, i);
    }
  }

  lemma {:induction false} OwnedTwice(ds: seq<Descriptor>, n: nat, alias: string, i: nat, j: nat)
    requires i < j < n <= |ds| && alias in ds[i].aliases && alias in ds[j].aliases
    ensures Owners(ds, n, alias) >= 2
  {
    if j == n - 1 {
      OwnersAtLeast(ds, n - 1, alias, i);
    } else {
      OwnedTwice(ds, n - 1, alias, i, j);
    }
  }

  lemma FreeIsUnshared(ds: seq<Descriptor>, reserved: set<string>)
    requires forall i :: 0 <= i < |ds| ==> Distinct(ds[i].aliases)
    ensures Unshared(EntriesFor(ds, reserved))
  {
    var entries := EntriesFor(ds, reserved);
    forall i, j, k | 0 <= i < |ds| && 0 <= j < |ds| && i != j && 0 <= k < |entries[i].availableAliases|
      ensures !HasAlias(entries[j], entries[i].availableAliases[k])
    {
      AvailableIsFree(ds, reserved, ds[i].aliases);
      var alias := entries[i].availableAliases[k];
      if alias in ds[j].aliases {
        if i < j {
          OwnedTwice(ds, |ds|, alias, i, j);
        } else {
          OwnedTwice(ds, |ds|, alias, j, i);
        }
      }
    }
  }

  // ---------- Registration order ----------

  /** The registry after the first `n` descriptors. */
  function ById(ds: seq<Descriptor>, n: nat): map<string, Descriptor>
    requires n <= |ds|
  {
    if n == 0 then map[] else ById(ds, n - 1)[ds[n - 1].id := ds[n - 1]]
  }

  /** Descriptor `i` is well-formed and collides with none before it. */
  predicate Acceptable(owner: Owner, reserved: set<string>, ds: seq<Descriptor>, i: nat)
    requires i < |ds|
  {
    && DescriptorValid(ds[i]) && OwnerAllows(owner, ds[i])
    && NoneBefore(ds, i, ds[i])
    && (ds[i].source.Builtin? || forall k :: 0 <= k < |ds[i].aliases| ==> ds[i].aliases[k] !in reserved)
  }

  predicate IdsDiffer(ds: seq<Descriptor>, n: nat)
    requires n <= |ds|
  {
    forall i, j :: 0 <= i < j < n ==> ds[i].id != ds[j].id
  }

  lemma {:induction false} ByIdHolds(ds: seq<Descriptor>, n: nat)
    requires n <= |ds| && IdsDiffer(ds, n)
    ensures forall i :: 0 <= i < n ==> Holds(ById(ds, n), ds[i])
    ensures forall id :: id in ById(ds, n) ==> IsAt(ds, n, id, ById(ds, n)[id])
  {
    if n > 0 {
      ByIdHolds(ds, n - 1);
      forall id | id in ById(ds, n) ensures IsAt(ds, n, id, ById(ds, n)[id]) {
        if id == ds[n - 1].id {
          assert ds[n - 1].id == id;
        } else {
          assert IsAt(ds, n - 1, id, ById(ds, n - 1)[id]);
        }
      }
    }
  }

  predicate Free(byId: map<string, Descriptor>, d: Descriptor) {
    forall id :: id in byId ==> id != d.id && byId[id].command != d.command
  }

  predicate NoneBefore(ds: seq<Descriptor>, n: nat, d: Descriptor)
    requires n <= |ds|
  {
    forall j :: 0 <= j < n ==> ds[j].id != d.id && ds[j].command != d.command
  }

  /** A descriptor collides with the registry exactly if it collides with one registered before. */
  lemma FreeOfEarlier(ds: seq<Descriptor>, n: nat)
    requires n < |ds| && IdsDiffer(ds, n)
    ensures Free(ById(ds, n), ds[n]) <==> NoneBefore(ds, n, ds[n])
  {
    ByIdHolds(ds, n);
    if Free(ById(ds, n), ds[n]) {
      forall j | 0 <= j < n ensures ds[j].id != ds[n].id && ds[j].command != ds[n].command {
        assert Holds(ById(ds, n), ds[j]);
      }
    }
    if NoneBefore(ds, n, ds[n]) {
      forall id | id in ById(ds, n) ensures id != ds[n].id && ById(ds, n)[id].command != ds[n].command {
        assert IsAt(ds, n, id, ById(ds, n)[id]);
      }
    }
  }

  predicate Holds(byId: map<string, Descriptor>, d: Descriptor) {
    d.id in byId && byId[d.id] == d
  }

  ghost predicate IsAt(ds: seq<Descriptor>, n: nat, id: string, d: Descriptor)
    requires n <= |ds|
  {
    d.id == id && exists i :: 0 <= i < n && ds[i] == d
  }

  /** A collision-free set of descriptors gives the same registry in every order of registration. */
  lemma OrderOfRegistration(a: seq<Descriptor>, b: seq<Descriptor>)
    requires Elements(a) == Elements(b) && IdsDiffer(a, |a|) && IdsDiffer(b, |b|)
    ensures ById(a, |a|) == ById(b, |b|)
  {
    SameIds(a, b);
    SameIds(b, a);
    ByIdHolds(a, |a|);
    ByIdHolds(b, |b|);
  }

  lemma SameIds(a: seq<Descriptor>, b: seq<Descriptor>)
    requires Elements(a) == Elements(b) && IdsDiffer(a, |a|) && IdsDiffer(b, |b|)
    ensures forall id :: id in ById(a, |a|) ==> id in ById(b, |b|) && ById(b, |b|)[id] == ById(a, |a|)[id]
  {
    ByIdHolds(a, |a|);
    ByIdHolds(b, |b|);
    forall id | id in ById(a, |a|) ensures id in ById(b, |b|) && ById(b, |b|)[id] == ById(a, |a|)[id] {
      var d := ById(a, |a|)[id];
      assert IsAt(a, |a|, id, d);
      assert d in Elements(a) && d in Elements(b);
      var j :| 0 <= j < |b| && b[j] == d;
    }
  }

  ghost predicate CommandsDiffer(all: set<Descriptor>) {
    forall x, y :: x in all && y in all && x != y ==> x.command != y.command
  }

  /** If the collation tells all names apart, the order of a catalog is determined by what it lists. */
  lemma {:induction false} OneOrder(precedes: Collation, a: seq<Descriptor>, b: seq<Descriptor>, all: set<Descriptor>)
    requires TotalOrder(precedes) && CommandsDiffer(all)
    requires Lists(precedes, a, all) && Lists(precedes, b, all)
    ensures a == b
    decreases |a|
  {
    if a == [] {
      if b != [] {
        FirstIsFirst(precedes, b, a, all);
      }
    } else {
      FirstIsFirst(precedes, a, b, all);
      TailLists(precedes, a, all);
      TailLists(precedes, b, all);
      OneOrder(precedes, a[1..], b[1..], all - {a[0]});
    }
  }

  lemma FirstIsFirst(precedes: Collation, a: seq<Descriptor>, b: seq<Descriptor>, all: set<Descriptor>)
    requires TotalOrder(precedes) && CommandsDiffer(all)
    requires Lists(precedes, a, all) && Lists(precedes, b, all) && a != []
    ensures b != [] && a[0] == b[0]
  {
    assert a[0] in Elements(a);
    var i :| 0 <= i < |b| && b[i] == a[0];
    assert b[0] in Elements(b);
    var j :| 0 <= j < |a| && a[j] == b[0];
  }

  lemma TailLists(precedes: Collation, ds: seq<Descriptor>, all: set<Descriptor>)
    requires Lists(precedes, ds, all) && ds != []
    ensures Lists(precedes, ds[1..], all - {ds[0]})
  {
    forall x ensures x in Elements(ds[1..]) <==> x in all && x != ds[0] {
      if x in ds[1..] {
        var i :| 0 <= i < |ds[1..]| && ds[1..][i] == x;
        assert ds[i + 1] == x;
        assert x in Elements(ds);
      }
      if x in all && x != ds[0] {
        assert x in Elements(ds);
        var i :| 0 <= i < |ds| && ds[i] == x;
        assert ds[1..][i - 1] == x;
      }
    }
  }

  /** Whatever the order in which the same descriptors were registered, the same catalog is published. */
  lemma OneCatalog(precedes: Collation, first: seq<Descriptor>, second: seq<Descriptor>,
                   a: seq<Descriptor>, b: seq<Descriptor>, owner: Owner, reserved: set<string>, binding: Binding)
    requires TotalOrder(precedes) && CommandsDiffer(Elements(first))
    requires Elements(first) == Elements(second) && IdsDiffer(first, |first|) && IdsDiffer(second, |second|)
    requires Lists(precedes, a, OfferedOf(ById(first, |first|), binding))
    requires Lists(precedes, b, OfferedOf(ById(second, |second|), binding))
    ensures Catalog(owner, binding, EntriesFor(a, reserved)) == Catalog(owner, binding, EntriesFor(b, reserved))
  {
    OrderOfRegistration(first, second);
    var offered := OfferedOf(ById(first, |first|), binding);
    ByIdHolds(first, |first|);
    forall d | d in offered ensures d in Elements(first) {
      assert IsAt(first, |first|, d.id, d);
    }
    OneOrder(precedes, a, b, OfferedOf(ById(first, |first|), binding));
  }

  // ---------- The validator ----------

  predicate EntryValid(catalog: Catalog, e: Entry) {
    && e.layer == LayerFor(e.descriptor.source)
    && DescriptorValid(e.descriptor) && OwnerAllows(catalog.owner, e.descriptor)
    && Offered(catalog.binding, e.descriptor)
    && Distinct(e.availableAliases)
    && forall i :: 0 <= i < |e.availableAliases| ==> e.availableAliases[i] in e.descriptor.aliases
  }

  predicate NotReserved(e: Entry) {
    forall i :: 0 <= i < |e.availableAliases| ==> e.availableAliases[i] !in RESERVED_COMMAND_NAMES
  }

  predicate HasAlias(e: Entry, alias: string) {
    alias in e.descriptor.aliases
  }

  /** An available alias belongs to one entry only. */
  predicate Unshared(entries: seq<Entry>) {
    forall i, j, k :: 0 <= i < |entries| && 0 <= j < |entries| && i != j && 0 <= k < |entries[i].availableAliases|
      ==> !HasAlias(entries[j], entries[i].availableAliases[k])
  }

  predicate InOrder(precedes: Collation, entries: seq<Entry>) {
    forall i, j :: 0 <= i < j < |entries| ==> !Before(precedes, entries[j].descriptor, entries[i].descriptor)
  }

  /** What a consumer of a catalog checks of it. */
  predicate CatalogValid(precedes: Collation, c: Catalog) {
    && BindingValid(c.binding)
    && |c.entries| <= MAX_ENTRIES
    && (forall i :: 0 <= i < |c.entries| ==> EntryValid(c, c.entries[i]))
    && (forall i :: 0 <= i < |c.entries| ==> NotReserved(c.entries[i]))
    && (forall i, j :: 0 <= i < j < |c.entries| ==>
          c.entries[i].descriptor.id != c.entries[j].descriptor.id
          && c.entries[i].descriptor.command != c.entries[j].descriptor.command)
    && InOrder(precedes, c.entries)
    && Unshared(c.entries)
  }

  // ---------- Resolving ----------

  function Matching(entries: seq<Entry>, n: nat, command: string): seq<int>
    requires n <= |entries|
    ensures forall k: int :: k in Matching(entries, n, command) <==> 0 <= k < n && entries[k].descriptor.command == command
  {
    if n == 0 then []
    else if entries[n - 1].descriptor.command == command then Matching(entries, n - 1, command) + [n - 1]
    else Matching(entries, n - 1, command)
  }

  function AliasOwners(entries: seq<Entry>, n: nat, alias: string): seq<int>
    requires n <= |entries|
    ensures forall k: int :: k in AliasOwners(entries, n, alias) <==> 0 <= k < n && HasAlias(entries[k], alias)
  {
    if n == 0 then []
    else if HasAlias(entries[n - 1], alias) then AliasOwners(entries, n - 1, alias) + [n - 1]
    else AliasOwners(entries, n - 1, alias)
  }

  /** A name is a command, or else an alias that exactly one entry has and makes available. */
  function Resolve(entries: seq<Entry>, name: string): Result<Entry, CommandError> {
    var exact := Matching(entries, |entries|, name);
    if |exact| > 1 then Err(CatalogConflict)
    else if |exact| == 1 then
      assert exact[0] in exact;
      Ok(entries[exact[0]])
    else
      var owners := AliasOwners(entries, |entries|, name);
      if |owners| > 1 then Err(Ambiguous)
      else if |owners| == 0 then Err(CommandUnknown)
      else
        assert owners[0] in owners;
        if name in entries[owners[0]].availableAliases then Ok(entries[owners[0]]) else Err(CommandUnknown)
  }

  ghost predicate NamesCommand(entries: seq<Entry>, name: string) {
    exists i :: 0 <= i < |entries| && entries[i].descriptor.command == name
  }

  predicate Offers(e: Entry, name: string) {
    name in e.availableAliases
  }

  lemma {:induction false} MatchingDistinct(entries: seq<Entry>, n: nat, command: string)
    requires n <= |entries|
    ensures Distinct(Matching(entries, n, command))
  {
    if n > 0 {
      MatchingDistinct(entries, n - 1, command);
      var before := Matching(entries, n - 1, command);
      assert forall i :: 0 <= i < |before| ==> before[i] in before;
    }
  }

  lemma {:induction false} OwnersDistinct(entries: seq<Entry>, n: nat, alias: string)
    requires n <= |entries|
    ensures Distinct(AliasOwners(entries, n, alias))
  {
    if n > 0 {
      OwnersDistinct(entries, n - 1, alias);
      var before := AliasOwners(entries, n - 1, alias);
      assert forall i :: 0 <= i < |before| ==> before[i] in before;
    }
  }

  /** A distinct list with a single possible member has at most one. */
  lemma OnlyOne(indexes: seq<int>, i: int)
    requires Distinct(indexes) && i in indexes && forall k :: k in indexes ==> k == i
    ensures indexes == [i]
  {
    MemberAt(indexes, 0);
    if |indexes| > 1 {
      MemberAt(indexes, 1);
    }
  }

  lemma MemberAt(s: seq<int>, i: nat)
    requires i < |s|
    ensures s[i] in s
  {
  }

  lemma NotShared(entries: seq<Entry>, i: nat, k: nat, j: nat)
    requires Unshared(entries) && i < |entries| && j < |entries| && i != j && k < |entries[i].availableAliases|
    ensures !HasAlias(entries[j], entries[i].availableAliases[k])
  {
  }

  /** Entry `i`, and no other, has the command. */
  ghost predicate OnlyCommand(entries: seq<Entry>, name: string, i: int) {
    && 0 <= i < |entries| && entries[i].descriptor.command == name
    && forall j :: 0 <= j < |entries| && j != i ==> entries[j].descriptor.command != name
  }

  /** Nobody has the command; entry `i`, and no other, has the alias, and makes it available. */
  ghost predicate OnlyAlias(entries: seq<Entry>, name: string, i: int) {
    && 0 <= i < |entries| && !NamesCommand(entries, name)
    && HasAlias(entries[i], name) && Offers(entries[i], name)
    && forall j :: 0 <= j < |entries| && j != i ==> !HasAlias(entries[j], name)
  }

  lemma {:induction false} NoMatchAmong(entries: seq<Entry>, n: nat, name: string)
    requires n <= |entries| && forall i :: 0 <= i < n ==> entries[i].descriptor.command != name
    ensures Matching(entries, n, name) == []
  {
    if n > 0 {
      NoMatchAmong(entries, n - 1, name);
    }
  }

  lemma NoMatch(entries: seq<Entry>, name: string)
    requires !NamesCommand(entries, name)
    ensures Matching(entries, |entries|, name) == []
  {
    forall i | 0 <= i < |entries| ensures entries[i].descriptor.command != name {
      assert entries[i].descriptor.command == name ==> NamesCommand(entries, name);
    }
    NoMatchAmong(entries, |entries|, name);
  }

  lemma CommandResolves(entries: seq<Entry>, name: string, i: nat)
    requires OnlyCommand(entries, name, i)
    ensures Resolve(entries, name) == Ok(entries[i])
  {
    MatchingDistinct(entries, |entries|, name);
    OnlyOne(Matching(entries, |entries|, name), i);
  }

  lemma AliasResolves(entries: seq<Entry>, name: string, i: nat)
    requires OnlyAlias(entries, name, i)
    ensures Resolve(entries, name) == Ok(entries[i])
  {
    NoMatch(entries, name);
    OwnersDistinct(entries, |entries|, name);
    OnlyOne(AliasOwners(entries, |entries|, name), i);
  }

  /** A single match is the only entry with the command. */
  lemma MatchIsOnly(entries: seq<Entry>, name: string)
    requires |Matching(entries, |entries|, name)| == 1
    ensures OnlyCommand(entries, name, Matching(entries, |entries|, name)[0])
  {
    var exact := Matching(entries, |entries|, name);
    assert exact[0] in exact;
    forall j | 0 <= j < |entries| && j != exact[0] ensures entries[j].descriptor.command != name {
      assert j !in exact;
    }
  }

  lemma OwnerIsOnly(entries: seq<Entry>, name: string, i: nat)
    requires Matching(entries, |entries|, name) == [] && AliasOwners(entries, |entries|, name) == [i]
    requires i < |entries| && Offers(entries[i], name)
    ensures OnlyAlias(entries, name, i)
  {
    assert (i as int) in [i];
    forall j | 0 <= j < |entries| && j != i ensures !HasAlias(entries[j], name) {
      assert j !in [i];
    }
    forall j | 0 <= j < |entries| ensures entries[j].descriptor.command != name {
      assert j !in Matching(entries, |entries|, name);
    }
  }

  /**
   Over any list of entries, joined from one catalog or from several: a name resolves to an entry exactly if
   that entry alone has it as its command, or nobody has and that entry alone has it as an alias, which it offers.
  */
  lemma ResolveIsExact(entries: seq<Entry>, name: string, e: Entry)
    ensures Resolve(entries, name) == Ok(e) <==>
      exists i :: 0 <= i < |entries| && entries[i] == e && (OnlyCommand(entries, name, i) || OnlyAlias(entries, name, i))
  {
    if i :| 0 <= i < |entries| && entries[i] == e && (OnlyCommand(entries, name, i) || OnlyAlias(entries, name, i)) {
      if OnlyCommand(entries, name, i) {
        CommandResolves(entries, name, i);
      } else {
        AliasResolves(entries, name, i);
      }
    }
    if Resolve(entries, name) == Ok(e) {
      if |Matching(entries, |entries|, name)| == 1 {
        MatchIsOnly(entries, name);
      } else {
        var owners := AliasOwners(entries, |entries|, name);
        assert owners[0] in owners;
        OwnerIsOnly(entries, name, owners[0]);
      }
    }
  }

  /** A command that two entries have is a conflict, even if both come from valid catalogs. */
  lemma SharedCommandConflicts(entries: seq<Entry>, name: string, i: nat, j: nat)
    requires i < j < |entries| && entries[i].descriptor.command == name == entries[j].descriptor.command
    ensures Resolve(entries, name) == Err(CatalogConflict)
  {
    var exact := Matching(entries, |entries|, name);
    var k :| 0 <= k < |exact| && exact[k] == i;
    var l :| 0 <= l < |exact| && exact[l] == j;
  }

  /** In one valid catalog a name resolves to an entry exactly if it is its command, or nobody's, and the entry offers it. */
  lemma ResolveInCatalog(precedes: Collation, c: Catalog, name: string, i: nat)
    requires CatalogValid(precedes, c) && i < |c.entries|
    ensures Resolve(c.entries, name) == Ok(c.entries[i]) <==>
      c.entries[i].descriptor.command == name || (!NamesCommand(c.entries, name) && Offers(c.entries[i], name))
  {
    ResolveIsExact(c.entries, name, c.entries[i]);
    if c.entries[i].descriptor.command == name {
      assert OnlyCommand(c.entries, name, i);
    } else if !NamesCommand(c.entries, name) && Offers(c.entries[i], name) {
      OfferedAlone(precedes, c, name, i);
    }
  }

  lemma OfferedAlone(precedes: Collation, c: Catalog, name: string, i: nat)
    requires CatalogValid(precedes, c) && i < |c.entries| && Offers(c.entries[i], name) && !NamesCommand(c.entries, name)
    ensures OnlyAlias(c.entries, name, i)
  {
    var k :| 0 <= k < |c.entries[i].availableAliases| && c.entries[i].availableAliases[k] == name;
    assert EntryValid(c, c.entries[i]);
    forall j | 0 <= j < |c.entries| && j != i ensures !HasAlias(c.entries[j], name) {
      NotShared(c.entries, i, k, j);
    }
  }
}
