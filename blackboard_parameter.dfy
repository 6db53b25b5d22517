/** Blackboard parameters: typed handles naming one blackboard slot by a scope and
    a key. A parameter owns no storage; each accessor hands its identifier,
    unchanged, to a tree, which resolves it. The tree's storage is not part of this
    model, so an accessor is modelled as the call it forwards and the tree it
    forwards it to. */
module Blackboard {
  import ArborTree
  import opened ArborOption

  /** The scope of storage private to one tree. */
  const TreeScope: string := "tree"
  /** The scope of storage shared by every tree in the process. */
  const GlobalScope: string := "global"

  /** A blackboard slot: its scope `bb` and its key `id`. */
  datatype BlackboardIdentifier = BlackboardIdentifier(bb: string, id: string)

  /** A handle for a slot holding values of type `T`; its only state is the slot's identifier. */
  datatype BlackboardParameter<T> = BlackboardParameter(identifier: BlackboardIdentifier)

  /** The tree an accessor forwards to: the tree currently being updated, or one given explicitly. */
  datatype Receiver = CurrentTree | GivenTree(tree: ArborTree.Tree)

  /** The tree operation an accessor invokes. */
  datatype Call<T> = BlackboardGet(identifier: BlackboardIdentifier)
                   | BlackboardSet(identifier: BlackboardIdentifier, value: T)
                   | RegisterSlot(identifier: BlackboardIdentifier)

  datatype Forward<T> = Forward(receiver: Receiver, call: Call<T>)

  /** The parameter for key `id` in the calling tree's private storage. */
  function Tree<T>(id: string): (p: BlackboardParameter<T>)
    ensures p.identifier.bb == TreeScope && p.identifier.id == id
  {
    BlackboardParameter(BlackboardIdentifier(TreeScope, id))
  }

  /** The parameter for key `id` in the process-wide storage. */
  function Global<T>(id: string): (p: BlackboardParameter<T>)
    ensures p.identifier.bb == GlobalScope && p.identifier.id == id
  {
    BlackboardParameter(BlackboardIdentifier(GlobalScope, id))
  }

  /** The parameter for key `itemid` in the storage named by the caller's `bbid`. */
  function Specific<T>(bbid: string, itemid: string): (p: BlackboardParameter<T>)
    ensures p.identifier.bb == bbid && p.identifier.id == itemid
  {
    BlackboardParameter(BlackboardIdentifier(bbid, itemid))
  }

  /** Reading the slot: a `BlackboardGet` of the parameter's identifier on the current tree. */
  function Get<T>(p: BlackboardParameter<T>): (f: Forward<T>)
    ensures f.receiver == CurrentTree && f.call.BlackboardGet? && f.call.identifier == p.identifier
  {
    Forward(CurrentTree, BlackboardGet(p.identifier))
  }

  /** Writing `value`: a `BlackboardSet` of the parameter's identifier and that value on the current tree. */
  function Set<T>(p: BlackboardParameter<T>, value: T): (f: Forward<T>)
    ensures f.receiver == CurrentTree && f.call.BlackboardSet? && f.call.identifier == p.identifier
    ensures f.call.value == value
  {
    Forward(CurrentTree, BlackboardSet(p.identifier, value))
  }

  /** Declaring the slot on the current tree. */
  function Register<T>(p: BlackboardParameter<T>): (f: Forward<T>)
    ensures f.receiver == CurrentTree && f.call.RegisterSlot? && f.call.identifier == p.identifier
  {
    Forward(CurrentTree, RegisterSlot(p.identifier))
  }

  /** Declaring the slot on the tree `tree` rather than the current one. */
  function RegisterWith<T>(p: BlackboardParameter<T>, tree: ArborTree.Tree): (f: Forward<T>)
    ensures f.receiver == GivenTree(tree) && f.call.RegisterSlot? && f.call.identifier == p.identifier
  {
    Forward(GivenTree(tree), RegisterSlot(p.identifier))
  }

  /** What an identifier's record holds: its two fields, by name, standing for the
      recorder's named fields `bb` and `id`. */
  function RecordIdentifier(i: BlackboardIdentifier): (fields: seq<(string, string)>)
    ensures Lookup(fields, "bb") == Some(i.bb) && Lookup(fields, "id") == Some(i.id)
  {
    var fields := [("bb", i.bb), ("id", i.id)];
    assert fields[0].0 != "id" by { assert fields[0].0[0] != "id"[0]; }
    assert fields[1..] == [("id", i.id)];
    fields
  }

  /** A parameter is recorded as its identifier, with nothing around it, so its
      record reads back as that identifier. */
  function RecordParameter<T>(p: BlackboardParameter<T>): (fields: seq<(string, string)>)
    ensures ReadIdentifier(fields) == Some(p.identifier)
  {
    RecordRoundTrip(p.identifier);
    RecordIdentifier(p.identifier)
  }

  /** The value recorded under `name`, the first one if the name repeats. */
  function Lookup(fields: seq<(string, string)>, name: string): (v: Option<string>)
    ensures v.Some? <==> exists k :: 0 <= k < |fields| && fields[k].0 == name
  {
    if fields == [] then None
    else if fields[0].0 == name then Some(fields[0].1)
    else Lookup(fields[1..], name)
  }

  /** Reading an identifier back from a record; a record missing a field reads as nothing. */
  function ReadIdentifier(fields: seq<(string, string)>): (i: Option<BlackboardIdentifier>)
    ensures i.Some? <==> Lookup(fields, "bb").Some? && Lookup(fields, "id").Some?
  {
    match (Lookup(fields, "bb"), Lookup(fields, "id"))
    case (Some(bb), Some(id)) => Some(BlackboardIdentifier(bb, id))
    case _ => None
  }

  /** `Specific` with the two named scopes builds the same parameter as `Tree` and `Global`. */
  lemma SpecificCoversNamedScopes<T>(k: string)
    ensures Specific<T>("tree", k) == Tree<T>(k)
    ensures Specific<T>("global", k) == Global<T>(k)
  {
  }

  /** Parameters are compared as values: two are equal exactly when they name the
      same scope and key, whichever constructor built them. */
  lemma ParametersEqualByScopeAndKey<T>(bb1: string, id1: string, bb2: string, id2: string)
    ensures Specific<T>(bb1, id1) == Specific<T>(bb2, id2) <==> bb1 == bb2 && id1 == id2
  {
  }

  /** The tree and global scopes never name the same slot. */
  lemma TreeAndGlobalAreDistinct<T>(a: string, b: string)
    ensures Tree<T>(a) != Global<T>(b)
  {
    assert |TreeScope| != |GlobalScope|;
  }

  /** Every accessor of a parameter hands on the very same identifier; only
      `RegisterWith` addresses another tree, with the call `Register` makes. */
  lemma AccessorsForwardIdentifier<T>(p: BlackboardParameter<T>, value: T, tree: ArborTree.Tree)
    ensures Get(p).call.identifier == Set(p, value).call.identifier == Register(p).call.identifier
            == RegisterWith(p, tree).call.identifier == p.identifier
    ensures RegisterWith(p, tree).call == Register(p).call
  {
  }

  /** Reading a recorded identifier gives back the identifier. */
  lemma RecordRoundTrip(i: BlackboardIdentifier)
    ensures ReadIdentifier(RecordIdentifier(i)) == Some(i)
  {
    var fields := RecordIdentifier(i);
    assert Lookup(fields, "bb") == Some(i.bb) && Lookup(fields, "id") == Some(i.id);
  }

  /** The record of a parameter determines it: two parameters with the same
      record are the same parameter. */
  lemma RecordDeterminesParameter<T>(p: BlackboardParameter<T>, q: BlackboardParameter<T>)
    ensures RecordParameter(p) == RecordParameter(q) <==> p == q
  {
    if RecordParameter(p) == RecordParameter(q) {
      assert Some(p.identifier) == ReadIdentifier(RecordParameter(p)) == Some(q.identifier);
    }
  }
}
