/**
 `dynamic_format_arg_store` (backend/include/fmt/args.h): formatting arguments in one contiguous
 vector whose slot 0 becomes a hidden header when the first named argument arrives, a second vector
 of named-argument records, and heap nodes for what has to be copied.  Also the lookups that
 `basic_format_args` (backend/include/fmt/base.h) makes through it.
 */
module ArgStore {
  import opened Options

  type Address = nat

  /**
   What a caller pushed: a value (stored in place or copied), or a reference (`cref`, a string view) to
   the caller's object.
   */
  datatype What = Value(v: string) | Reference(r: Address)

  datatype Pushed = Pushed(name: Option<string>, what: What)

  /** A `basic_format_arg`: a value in place, a pointer to a heap node or to the caller's object, or the header. */
  datatype Arg =
    | InPlace(v: string)
    | ToNode(node: Address)
    | ToCaller(r: Address)
    | Header(buffer: Address, size: nat)

  /** A `named_arg_info`: the node holding the copied name, and the index of the argument. */
  datatype Named = Named(name: Address, id: int)

  /** What an argument slot stands for, if the node it points to is live. */
  function Resolve(nodes: map<Address, string>, a: Arg): Option<What> {
    match a
    case InPlace(v) => Some(Value(v))
    case ToNode(p) => if p in nodes then Some(Value(nodes[p])) else None
    case ToCaller(r) => Some(Reference(r))
    case Header(_, _) => None
  }

  /** `data()`: past the header if there is one. */
  function Visible(data: seq<Arg>, named: seq<Named>): seq<Arg> {
    if named == [] || data == [] then data else data[1..]
  }

  /** The indices of the named arguments, in order. */
  function NamedIndices(log: seq<Pushed>): seq<nat> {
    if log == [] then []
    else
      var rest := NamedIndices(log[..|log| - 1]);
      if log[|log| - 1].name.Some? then rest + [|log| - 1] else rest
  }

  predicate RecordFits(nodes: map<Address, string>, log: seq<Pushed>, n: Named) {
    && 0 <= n.id < |log|
    && log[n.id].name.Some?
    && n.name in nodes && nodes[n.name] == log[n.id].name.value
  }

  /** The slots callers see stand for the arguments, one each, in order. */
  predicate Slots(visible: seq<Arg>, nodes: map<Address, string>, log: seq<Pushed>) {
    && |visible| == |log|
    && (forall i :: 0 <= i < |log| ==> Resolve(nodes, visible[i]) == Some(log[i].what))
  }

  /** The records name exactly the named arguments, in order. */
  predicate Records(named: seq<Named>, nodes: map<Address, string>, log: seq<Pushed>) {
    && |named| == |NamedIndices(log)|
    && (forall k :: 0 <= k < |named| ==> named[k].id == NamedIndices(log)[k] && RecordFits(nodes, log, named[k]))
  }

  /** The three containers hold exactly the arguments in `log`; slot 0 is the header just when there are records. */
  predicate Represents(data: seq<Arg>, named: seq<Named>, buffer: Address, nodes: map<Address, string>,
                       log: seq<Pushed>)
  {
    && Slots(Visible(data, named), nodes, log)
    && (named != [] ==> data != [] && data[0] == Header(buffer, |named|))
    && Records(named, nodes, log)
  }

  lemma {:induction false} NamedIndicesAreNamed(log: seq<Pushed>)
    ensures forall k :: 0 <= k < |NamedIndices(log)| ==>
              NamedIndices(log)[k] < |log| && log[NamedIndices(log)[k]].name.Some?
    ensures forall j, k :: 0 <= j < k < |NamedIndices(log)| ==> NamedIndices(log)[j] < NamedIndices(log)[k]
    ensures forall i :: 0 <= i < |log| && log[i].name.Some? ==> i in NamedIndices(log)
  {
    if log != [] {
      var prev := log[..|log| - 1];
      NamedIndicesAreNamed(prev);
      assert forall i :: 0 <= i < |prev| ==> log[i] == prev[i];
    }
  }

  // ---------------------------------------------------------------------------------------------
  // Adding one argument
  // ---------------------------------------------------------------------------------------------

  /** Growing the heap disturbs nothing that is stored. */
  lemma NewNodeKeeps(data: seq<Arg>, named: seq<Named>, buffer: Address, nodes: map<Address, string>, log: seq<Pushed>,
                     p: Address, text: string)
    requires Represents(data, named, buffer, nodes, log) && p !in nodes
    ensures Represents(data, named, buffer, nodes[p := text], log)
  {
  }

  lemma AddSlot(visible: seq<Arg>, nodes: map<Address, string>, log: seq<Pushed>, a: Arg, p: Pushed)
    requires Slots(visible, nodes, log) && Resolve(nodes, a) == Some(p.what)
    ensures Slots(visible + [a], nodes, log + [p])
  {
  }

  lemma KeepRecords(named: seq<Named>, nodes: map<Address, string>, log: seq<Pushed>, what: What)
    requires Records(named, nodes, log)
    ensures Records(named, nodes, log + [Pushed(None, what)])
  {
    var log' := log + [Pushed(None, what)];
    assert log'[..|log'| - 1] == log;
    forall k | 0 <= k < |named|
      ensures RecordFits(nodes, log', named[k])
    {
      assert RecordFits(nodes, log, named[k]);
    }
  }

  lemma AddRecord(named: seq<Named>, nodes: map<Address, string>, log: seq<Pushed>, name: Address, what: What)
    requires Records(named, nodes, log) && name in nodes
    ensures Records(named + [Named(name, |log|)], nodes, log + [Pushed(Some(nodes[name]), what)])
  {
    var log' := log + [Pushed(Some(nodes[name]), what)];
    assert log'[..|log'| - 1] == log;
    assert NamedIndices(log') == NamedIndices(log) + [|log|];
    forall k | 0 <= k < |named|
      ensures RecordFits(nodes, log', named[k])
    {
      assert RecordFits(nodes, log, named[k]);
    }
  }

  lemma AddPositional(data: seq<Arg>, named: seq<Named>, buffer: Address, nodes: map<Address, string>, log: seq<Pushed>,
                      a: Arg, what: What)
    requires Represents(data, named, buffer, nodes, log) && Resolve(nodes, a) == Some(what)
    ensures Represents(data + [a], named, buffer, nodes, log + [Pushed(None, what)])
  {
    assert Visible(data + [a], named) == Visible(data, named) + [a];
    AddSlot(Visible(data, named), nodes, log, a, Pushed(None, what));
    KeepRecords(named, nodes, log, what);
  }

  /** `data_.insert(data_.begin(), ...)` when the first named argument comes. */
  function WithHeader(data: seq<Arg>, named: seq<Named>): seq<Arg> {
    if named == [] then [Header(0, 0)] + data else data
  }

  lemma VisibleAfterNamed(data: seq<Arg>, named: seq<Named>, a: Arg, header: Arg, n: Named)
    requires named != [] ==> data != []
    ensures var data1 := WithHeader(data, named) + [a];
            |data1| - 2 == |Visible(data, named)| &&
            Visible(data1[0 := header], named + [n]) == Visible(data, named) + [a]
  {
  }

  /** The id written for the new argument is its index as callers count, not its slot. */
  lemma AddNamed(data: seq<Arg>, named: seq<Named>, buffer: Address, nodes: map<Address, string>, log: seq<Pushed>,
                 a: Arg, what: What, name: Address, buffer': Address)
    requires Represents(data, named, buffer, nodes, log) && Resolve(nodes, a) == Some(what) && name in nodes
    ensures var data1 := WithHeader(data, named) + [a];
            var named' := named + [Named(name, |data1| - 2)];
            Represents(data1[0 := Header(buffer', |named'|)], named', buffer', nodes,
                       log + [Pushed(Some(nodes[name]), what)])
  {
    VisibleAfterNamed(data, named, a, Header(buffer', |named| + 1), Named(name, |log|));
    AddSlot(Visible(data, named), nodes, log, a, Pushed(Some(nodes[name]), what));
    AddRecord(named, nodes, log, name, what);
  }

  // ---------------------------------------------------------------------------------------------
  // Looking arguments up
  // ---------------------------------------------------------------------------------------------

  /** `basic_format_args::get(id)` for an argument that was pushed: `data()[i]` is the i-th one. */
  lemma ArgumentsKeepTheirIndices(data: seq<Arg>, named: seq<Named>, buffer: Address, nodes: map<Address, string>,
                                  log: seq<Pushed>, i: nat)
    requires Represents(data, named, buffer, nodes, log) && i < |log|
    ensures var slot := if named == [] then i else i + 1;
            slot < |data| && Resolve(nodes, data[slot]) == Some(log[i].what)
  {
    assert Resolve(nodes, Visible(data, named)[i]) == Some(log[i].what);
  }

  /** `size()` is the number of arguments exactly when none is named; else it counts the header too. */
  lemma SizeCountsTheHeader(data: seq<Arg>, named: seq<Named>, buffer: Address, nodes: map<Address, string>,
                            log: seq<Pushed>)
    requires Represents(data, named, buffer, nodes, log)
    ensures |data| == |log| <==> (forall i :: 0 <= i < |log| ==> log[i].name.None?)
    ensures |data| == |log| || |data| == |log| + 1
  {
    NamedIndicesAreNamed(log);
    if named != [] {
      assert log[NamedIndices(log)[0]].name.Some?;
    }
  }

  predicate AnyNamed(log: seq<Pushed>) {
    exists k :: 0 <= k < |log| && log[k].name.Some?
  }

  /**
   The guard of `get(int id)` is `id < size()` alone.  An index it lets through has a slot, except the
   negative ones and, when some argument is named, the first index past the end.
   */
  lemma LookupGuardFailsExactly(data: seq<Arg>, named: seq<Named>, buffer: Address, nodes: map<Address, string>,
                                log: seq<Pushed>, i: int)
    requires Represents(data, named, buffer, nodes, log)
    ensures i < |data| && !(0 <= i < |Visible(data, named)|) <==> i < 0 || (i == |log| && AnyNamed(log))
  {
    SizeCountsTheHeader(data, named, buffer, nodes, log);
  }

  /** The smallest store with a named argument: two slots, one argument, and index 1 passes the guard. */
  lemma OneNamedArgumentMisleadsTheGuard(name: string, v: string, p: Address, buffer: Address)
    ensures var data, named := [Header(buffer, 1), InPlace(v)], [Named(p, 0)];
            && Represents(data, named, buffer, map[p := name], [Pushed(Some(name), Value(v))])
            && 1 < |data| && |Visible(data, named)| == 1
  {
    AddNamed([], [], buffer, map[p := name], [], InPlace(v), Value(v), p, buffer);
    assert (WithHeader([], []) + [InPlace(v)])[0 := Header(buffer, 1)] == [Header(buffer, 1), InPlace(v)];
    assert [] + [Named(p, 0)] == [Named(p, 0)];
    assert [] + [Pushed(Some(name), Value(v))] == [Pushed(Some(name), Value(v))];
  }

  lemma NamedIffAnyNamed(data: seq<Arg>, named: seq<Named>, buffer: Address, nodes: map<Address, string>,
                         log: seq<Pushed>)
    requires Represents(data, named, buffer, nodes, log)
    ensures named != [] <==> AnyNamed(log)
  {
    NamedIndicesAreNamed(log);
    if named != [] {
      assert log[NamedIndices(log)[0]].name.Some?;
    }
  }

  /** What a lookup by index does: finds an argument, finds none, or reads what is no argument. */
  datatype Lookup = Found(what: What) | NotThere | ReadsHeader | OutOfBounds

  // ---------------------------------------------------------------------------------------------
  // Whole runs
  // ---------------------------------------------------------------------------------------------

  datatype Op =
    | PushV(v: string, copy: bool)
    | PushR(r: Address)
    | PushNamedV(name: string, v: string, copy: bool)
    | PushNamedR(name: string, r: Address)
    | ClearAll
    | ReserveRoom(newCap: nat, newCapNamed: nat)

  /** The arguments a caller expects in the store after one more call. */
  function Expected(log: seq<Pushed>, op: Op): seq<Pushed> {
    match op
    case PushV(v, _) => log + [Pushed(None, Value(v))]
    case PushR(r) => log + [Pushed(None, Reference(r))]
    case PushNamedV(name, v, _) => log + [Pushed(Some(name), Value(v))]
    case PushNamedR(name, r) => log + [Pushed(Some(name), Reference(r))]
    case ClearAll => []
    case ReserveRoom(_, _) => log
  }

  function ExpectedAll(log: seq<Pushed>, ops: seq<Op>): seq<Pushed> {
    if ops == [] then log else Expected(ExpectedAll(log, ops[..|ops| - 1]), ops[|ops| - 1])
  }

  /** Room is reserved only as documented, and only while no named argument is stored. */
  predicate ReservesEarly(log: seq<Pushed>, ops: seq<Op>) {
    forall k :: 0 <= k < |ops| && ops[k].ReserveRoom? ==>
      ops[k].newCap >= ops[k].newCapNamed && NamedIndices(ExpectedAll(log, ops[..k])) == []
  }

  /** Calls that reserve nothing satisfy that, and so does reserving on an empty store. */
  lemma UsualCallsReserveEarly(log: seq<Pushed>, ops: seq<Op>, newCap: nat, newCapNamed: nat)
    requires newCap >= newCapNamed && forall op :: op in ops ==> !op.ReserveRoom?
    ensures ReservesEarly(log, ops) && ReservesEarly([], [ReserveRoom(newCap, newCapNamed)] + ops)
  {
    var more := [ReserveRoom(newCap, newCapNamed)] + ops;
    assert forall k :: 0 < k < |more| ==> more[k] == ops[k - 1] && ops[k - 1] in ops;
    assert more[..0] == [];
  }

  /** A copied value is in a new node that its slot points to; any other is in the slot itself. */
  predicate Stored(before: map<Address, string>, v: string, copy: bool, after: map<Address, string>, slot: Arg) {
    if copy then slot.ToNode? && slot.node !in before && after == before[slot.node := v]
    else slot == InPlace(v) && after == before
  }

  predicate FirstNamed(log: seq<Pushed>, name: string, i: int) {
    && 0 <= i < |log| && log[i].name == Some(name)
    && (forall j :: 0 <= j < i ==> log[j].name != Some(name))
  }

  class Store {
    var data: seq<Arg>
    var named: seq<Named>
    var buffer: Address          // where named_info_ keeps its elements
    var capacity: nat            // and how many fit there
    var nodes: map<Address, string>
    var frontier: Address           // no node or buffer at or above this address has ever existed
    ghost var log: seq<Pushed>   // the arguments pushed since the last clear

    ghost predicate Valid()
      reads this
    {
      && Represents(data, named, buffer, nodes, log)
      && |named| <= capacity
      && buffer < frontier
      && (forall p :: p in nodes ==> p < frontier)
    }

    constructor ()
      ensures Valid() && log == []
    {
      data, named, buffer, capacity, nodes, frontier, log := [], [], 0, 0, map[], 1, [];
    }

    /** `dynamic_args_.push`: a new node, no other node moves. */
    method PushNode(text: string) returns (p: Address)
      requires Valid()
      modifies this`nodes, this`frontier
      ensures Valid() && p !in old(nodes) && nodes == old(nodes)[p := text]
    {
      NewNodeKeeps(data, named, buffer, nodes, log, frontier, text);
      p := frontier;
      nodes, frontier := nodes[p := text], frontier + 1;
    }

    method EmplacePositional(a: Arg, ghost what: What)
      requires Valid() && Resolve(nodes, a) == Some(what)
      modifies this`data, this`log
      ensures Valid() && log == old(log) + [Pushed(None, what)]
      ensures data == old(data) + [a]
    {
      AddPositional(data, named, buffer, nodes, log, a, what);
      data := data + [a];
      log := log + [Pushed(None, what)];
    }

    /** `named_info_.push_back` may move the records to a new and larger buffer first. */
    method MakeRoom()
      requires |named| <= capacity && buffer < frontier
      modifies this`buffer, this`capacity, this`frontier
      ensures |named| < capacity && buffer < frontier && old(frontier) <= frontier
      ensures old(|named| < capacity) ==> buffer == old(buffer) && capacity == old(capacity)
      ensures old(|named| == capacity) ==> buffer == old(frontier)
    {
      if |named| == capacity {
        var more :| more > |named|;
        buffer, frontier, capacity := frontier, frontier + 1, more;
      }
    }

    /** `emplace_arg` for a named argument; the vector of records may move to a new buffer. */
    method EmplaceNamed(name: Address, a: Arg, ghost what: What)
      requires Valid() && Resolve(nodes, a) == Some(what) && name in nodes
      modifies this`data, this`named, this`buffer, this`capacity, this`frontier, this`log
      ensures Valid() && log == old(log) + [Pushed(Some(nodes[name]), what)]
      ensures data != [] && data[|data| - 1] == a && named == old(named) + [Named(name, |old(log)|)]
    {
      if named == [] {
        data := [Header(0, 0)] + data;
      }
      data := data + [a];
      MakeRoom();
      AddNamed(old(data), old(named), old(buffer), nodes, log, a, what, name, buffer);
      named := named + [Named(name, |data| - 2)];
      data := data[0 := Header(buffer, |named|)];
      log := log + [Pushed(Some(nodes[name]), what)];
    }

    /** `push_back` of a value; `copy` is what `need_copy` says about its type. */
    method PushValue(v: string, copy: bool)
      requires Valid()
      modifies this
      ensures Valid() && log == old(log) + [Pushed(None, Value(v))]
      ensures data != [] && Stored(old(nodes), v, copy, nodes, data[|data| - 1])
    {
      if copy {
        var p := PushNode(v);
        EmplacePositional(ToNode(p), Value(v));
      } else {
        EmplacePositional(InPlace(v), Value(v));
      }
    }

    /** `push_back(std::reference_wrapper)`. */
    method PushReference(r: Address)
      requires Valid()
      modifies this
      ensures Valid() && log == old(log) + [Pushed(None, Reference(r))]
      ensures nodes == old(nodes) && data == old(data) + [ToCaller(r)]
    {
      EmplacePositional(ToCaller(r), Reference(r));
    }

    /** `push_back(fmt::arg(name, v))`: the name is always copied. */
    method PushNamedValue(name: string, v: string, copy: bool)
      requires Valid()
      modifies this
      ensures Valid() && log == old(log) + [Pushed(Some(name), Value(v))]
      ensures exists n: Address :: n !in old(nodes) &&
                data != [] && Stored(old(nodes)[n := name], v, copy, nodes, data[|data| - 1])
    {
      var n := PushNode(name);
      if copy {
        var p := PushNode(v);
        EmplaceNamed(n, ToNode(p), Value(v));
      } else {
        EmplaceNamed(n, InPlace(v), Value(v));
      }
    }

    method PushNamedReference(name: string, r: Address)
      requires Valid()
      modifies this
      ensures Valid() && log == old(log) + [Pushed(Some(name), Reference(r))]
      ensures exists n: Address :: n !in old(nodes) && nodes == old(nodes)[n := name]
    {
      var n := PushNode(name);
      EmplaceNamed(n, ToCaller(r), Reference(r));
    }

    method Clear()
      requires Valid()
      modifies this
      ensures Valid() && log == [] && data == [] && named == [] && nodes == map[]
    {
      data, named, nodes, log := [], [], map[], [];
    }

    /**
     `reserve`: harmless while no named argument is stored or when the records already have room;
     otherwise the records move and the header is left pointing at their old place.
     */
    method Reserve(newCap: nat, newCapNamed: nat)
      requires Valid() && newCap >= newCapNamed
      modifies this`buffer, this`capacity, this`frontier
      ensures Valid() <==> old(named) == [] || newCapNamed <= old(capacity)
      ensures capacity >= newCapNamed && capacity >= old(capacity)
    {
      if newCapNamed > capacity {
        buffer, frontier, capacity := frontier, frontier + 1, newCapNamed;
      }
    }

    /** Any sequence of calls leaves the store holding exactly what the calls say. */
    method Execute(ops: seq<Op>)
      requires Valid() && ReservesEarly(log, ops)
      modifies this
      ensures Valid() && log == ExpectedAll(old(log), ops)
    {
      for k := 0 to |ops|
        invariant Valid() && log == ExpectedAll(old(log), ops[..k])
      {
        assert ops[..k + 1][..k] == ops[..k] && ops[..k + 1][k] == ops[k];
        match ops[k]
        case PushV(v, copy) => PushValue(v, copy);
        case PushR(r) => PushReference(r);
        case PushNamedV(name, v, copy) => PushNamedValue(name, v, copy);
        case PushNamedR(name, r) => PushNamedReference(name, r);
        case ClearAll => Clear();
        case ReserveRoom(newCap, newCapNamed) => Reserve(newCap, newCapNamed);
      }
      assert ops[..|ops|] == ops;
    }

    /**
     `get(int id)` through the conversion to `basic_format_args`, for every index.  An index that was
     pushed gives its argument.  The guard is meant to answer every other index with "none"; it does so
     except for negative ones and, with a named argument stored, the first one past the end.
     */
    method Get(i: int) returns (found: Lookup)
      requires Valid()
      ensures 0 <= i < |log| ==> found == Found(log[i].what)
      ensures i > |log| || (i == |log| && !AnyNamed(log)) ==> found == NotThere
      ensures i == -1 && AnyNamed(log) ==> found == ReadsHeader
      ensures i < -1 || (i == -1 && !AnyNamed(log)) || (i == |log| && AnyNamed(log)) ==> found == OutOfBounds
    {
      NamedIffAnyNamed(data, named, buffer, nodes, log);
      if i >= |data| {
        return NotThere;
      }
      var slot := if named == [] then i else i + 1;
      if slot < 0 || slot >= |data| {
        return OutOfBounds;
      }
      if 0 <= i {
        ArgumentsKeepTheirIndices(data, named, buffer, nodes, log, i);
      }
      match data[slot]
      case InPlace(v) => found := Found(Value(v));
      case ToNode(p) => found := Found(Value(nodes[p]));
      case ToCaller(r) => found := Found(Reference(r));
      case Header(_, _) => found := ReadsHeader;
    }

    /** `get_id(name)`: a search through the records the header describes. */
    method GetId(name: string) returns (id: int)
      requires Valid()
      ensures id >= 0 ==> FirstNamed(log, name, id)
      ensures id < 0 ==> id == -1 && forall i :: 0 <= i < |log| ==> log[i].name != Some(name)
    {
      if named == [] {
        NamedIndicesAreNamed(log);
        return -1;
      }
      var count := data[0].size;
      NamedIndicesAreNamed(log);
      for k := 0 to count
        invariant forall j :: 0 <= j < k ==> log[NamedIndices(log)[j]].name != Some(name)
      {
        assert RecordFits(nodes, log, named[k]);
        if nodes[named[k].name] == name {
          return named[k].id;
        }
      }
      return -1;
    }
  }
}
