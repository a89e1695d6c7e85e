/** Bounded reading of one JSON value. Text parsing itself is a parameter: it yields a raw tree that
    may repeat object keys. The budget-threading visitor accepts a tree exactly when a simple
    measure of it fits the limits. */
module Json {
  import opened Basics
  import opened Messages

  datatype Member = Member(key: Text, value: RawJson)

  /** A parsed but unchecked JSON value. */
  datatype RawJson =
    | RawNull
    | RawBool(flag: bool)
    | RawUnsigned(natural: u64)
    | RawSigned(negative: NegativeI64)
    | RawFloat(fraction: real)
    | RawString(text: Text)
    | RawArray(items: seq<RawJson>)
    | RawObject(members: seq<Member>)

  /** A checked value: objects are maps. */
  datatype Value =
    | Null
    | Bool(flag: bool)
    | UnsignedNumber(natural: u64)
    | SignedNumber(negative: NegativeI64)
    | Float(fraction: real)
    | String(text: Text)
    | Array(items: seq<Value>)
    | Object(members: map<Text, Value>)

  // ---- The measure -----------------------------------------------------------------------

  ghost function Depth(t: RawJson): nat
    decreases t, 1
  {
    match t
    case RawArray(items) => 1 + ItemsDepth(items)
    case RawObject(members) => 1 + MembersDepth(members)
    case _ => 1
  }

  ghost function ItemsDepth(items: seq<RawJson>): nat
    decreases items, 0
  {
    if items == [] then 0 else
      var n := |items| - 1;
      Max(ItemsDepth(items[..n]), Depth(items[n]))
  }

  ghost function MembersDepth(members: seq<Member>): nat
    decreases members, 0
  {
    if members == [] then 0 else
      var n := |members| - 1;
      Max(MembersDepth(members[..n]), Depth(members[n].value))
  }

  ghost function Nodes(t: RawJson): nat
    decreases t, 1
  {
    match t
    case RawArray(items) => 1 + ItemsNodes(items)
    case RawObject(members) => 1 + MembersNodes(members)
    case _ => 1
  }

  ghost function ItemsNodes(items: seq<RawJson>): nat
    decreases items, 0
  {
    if items == [] then 0 else
      var n := |items| - 1;
      ItemsNodes(items[..n]) + Nodes(items[n])
  }

  ghost function MembersNodes(members: seq<Member>): nat
    decreases members, 0
  {
    if members == [] then 0 else
      var n := |members| - 1;
      MembersNodes(members[..n]) + Nodes(members[n].value)
  }

  ghost function Keys(members: seq<Member>): set<Text> {
    set m | m in members :: m.key
  }

  /** No object repeats a key. */
  ghost predicate Unambiguous(t: RawJson)
    decreases t, 1
  {
    match t
    case RawArray(items) => ItemsUnambiguous(items)
    case RawObject(members) => MembersUnambiguous(members)
    case _ => true
  }

  ghost predicate ItemsUnambiguous(items: seq<RawJson>)
    decreases items, 0
  {
    items == [] || (ItemsUnambiguous(items[..|items| - 1]) && Unambiguous(items[|items| - 1]))
  }

  ghost predicate MembersUnambiguous(members: seq<Member>)
    decreases members, 0
  {
    members == [] ||
    (var n := |members| - 1;
     && MembersUnambiguous(members[..n])
     && members[n].key !in Keys(members[..n])
     && Unambiguous(members[n].value))
  }

  // ---- The meaning -----------------------------------------------------------------------

  ghost function ToValue(t: RawJson): Value
    decreases t, 1
  {
    match t
    case RawNull => Null
    case RawBool(b) => Bool(b)
    case RawUnsigned(n) => UnsignedNumber(n)
    case RawSigned(n) => SignedNumber(n)
    case RawFloat(x) => Float(x)
    case RawString(s) => String(s)
    case RawArray(items) => Array(ItemsValue(items))
    case RawObject(members) => Object(MembersValue(members))
  }

  ghost function ItemsValue(items: seq<RawJson>): seq<Value>
    decreases items, 0
  {
    if items == [] then [] else ItemsValue(items[..|items| - 1]) + [ToValue(items[|items| - 1])]
  }

  ghost function MembersValue(members: seq<Member>): map<Text, Value>
    decreases members, 0
  {
    if members == [] then map[] else
      var n := |members| - 1;
      MembersValue(members[..n])[members[n].key := ToValue(members[n].value)]
  }

  // ---- The visitor -----------------------------------------------------------------------

  datatype Violation = DuplicateKey | TooDeep | TooManyNodes

  class Budget {
    const limits: JsonLimits
    var nodes: nat
    var violation: Option<Violation>

    constructor (limits: JsonLimits)
      ensures this.limits == limits && nodes == 0 && violation == None
    {
      this.limits := limits;
      nodes, violation := 0, None;
    }

    method Claim(depth: nat) returns (granted: bool)
      modifies this
      ensures granted <==> depth <= limits.depth && old(nodes) < limits.nodes
      ensures granted ==> nodes == old(nodes) + 1 && violation == old(violation)
      ensures !granted ==> && nodes == old(nodes)
                           && violation == Some(if depth > limits.depth then TooDeep else TooManyNodes)
    {
      if depth > limits.depth {
        violation := Some(TooDeep);
        return false;
      }
      if nodes >= limits.nodes {
        violation := Some(TooManyNodes);
        return false;
      }
      nodes := nodes + 1;
      return true;
    }

    /** Reads one value at `depth`, spending one node of budget per value. */
    method Visit(t: RawJson, depth: nat) returns (r: Option<Value>)
      requires nodes <= limits.nodes && depth > 0
      modifies this
      ensures nodes <= limits.nodes
      ensures r.Some? <==> depth + Depth(t) <= limits.depth + 1 && old(nodes) + Nodes(t) <= limits.nodes
                           && Unambiguous(t)
      ensures r.Some? ==> r.value == ToValue(t) && nodes == old(nodes) + Nodes(t) && violation == old(violation)
      ensures r.None? ==> Blames(violation, t, depth, old(nodes))
      decreases t, 1
    {
      var granted := Claim(depth);
      if !granted {
        return None;
      }
      match t
      case RawNull => r := Some(Null);
      case RawBool(b) => r := Some(Bool(b));
      case RawUnsigned(n) => r := Some(UnsignedNumber(n));
      case RawSigned(n) => r := Some(SignedNumber(n));
      case RawFloat(x) => r := Some(Float(x));
      case RawString(s) => r := Some(String(s));
      case RawArray(items) =>
        var values := VisitItems(items, depth);
        r := if values.Some? then Some(Array(values.value)) else None;
      case RawObject(members) =>
        var values := VisitMembers(members, depth);
        r := if values.Some? then Some(Object(values.value)) else None;
    }

    /** A recorded violation names a defect the tree really has. */
    ghost predicate Blames(v: Option<Violation>, t: RawJson, depth: nat, spent: nat) {
      v.Some? && match v.value
      case DuplicateKey => !Unambiguous(t)
      case TooDeep => depth + Depth(t) > limits.depth + 1
      case TooManyNodes => spent + Nodes(t) > limits.nodes
    }

    method VisitItems(items: seq<RawJson>, depth: nat) returns (r: Option<seq<Value>>)
      requires nodes <= limits.nodes && 0 < depth <= limits.depth
      modifies this
      ensures nodes <= limits.nodes
      ensures r.Some? <==> depth + ItemsDepth(items) <= limits.depth && old(nodes) + ItemsNodes(items) <= limits.nodes
                           && ItemsUnambiguous(items)
      ensures r.Some? ==> r.value == ItemsValue(items) && nodes == old(nodes) + ItemsNodes(items)
                          && violation == old(violation)
      ensures r.None? ==> violation.Some? && match violation.value
                            case DuplicateKey => !ItemsUnambiguous(items)
                            case TooDeep => depth + ItemsDepth(items) > limits.depth
                            case TooManyNodes => old(nodes) + ItemsNodes(items) > limits.nodes
      decreases items, 0
    {
      var values := [];
      var i := 0;
      while i < |items|
        invariant 0 <= i <= |items|
        invariant depth + ItemsDepth(items[..i]) <= limits.depth && ItemsUnambiguous(items[..i])
        invariant nodes == old(nodes) + ItemsNodes(items[..i]) <= limits.nodes
        invariant values == ItemsValue(items[..i]) && violation == old(violation)
      {
        assert items[..i + 1][..i] == items[..i];
        ItemsGrow(items, i + 1);
        var value := Visit(items[i], depth + 1);
        if value.None? {
          return None;
        }
        values := values + [value.value];
        i := i + 1;
      }
      assert items[..|items|] == items;
      return Some(values);
    }

    method VisitMembers(members: seq<Member>, depth: nat) returns (r: Option<map<Text, Value>>)
      requires nodes <= limits.nodes && 0 < depth <= limits.depth
      modifies this
      ensures nodes <= limits.nodes
      ensures r.Some? <==> depth + MembersDepth(members) <= limits.depth
                           && old(nodes) + MembersNodes(members) <= limits.nodes && MembersUnambiguous(members)
      ensures r.Some? ==> r.value == MembersValue(members) && nodes == old(nodes) + MembersNodes(members)
                          && violation == old(violation)
      ensures r.None? ==> violation.Some? && match violation.value
                            case DuplicateKey => !MembersUnambiguous(members)
                            case TooDeep => depth + MembersDepth(members) > limits.depth
                            case TooManyNodes => old(nodes) + MembersNodes(members) > limits.nodes
      decreases members, 0
    {
      var values: map<Text, Value> := map[];
      var keys: set<Text> := {};
      var i := 0;
      while i < |members|
        invariant 0 <= i <= |members|
        invariant depth + MembersDepth(members[..i]) <= limits.depth && MembersUnambiguous(members[..i])
        invariant nodes == old(nodes) + MembersNodes(members[..i]) <= limits.nodes
        invariant values == MembersValue(members[..i]) && violation == old(violation)
        invariant keys == Keys(members[..i])
      {
        assert members[..i + 1][..i] == members[..i];
        MembersGrow(members, i + 1);
        if members[i].key in keys {
          violation := Some(DuplicateKey);
          return None;
        }
        assert Keys(members[..i + 1]) == Keys(members[..i]) + {members[i].key} by {
          assert members[..i + 1] == members[..i] + [members[i]];
        }
        keys := keys + {members[i].key};
        var value := Visit(members[i].value, depth + 1);
        if value.None? {
          return None;
        }
        values := values[members[i].key := value.value];
        i := i + 1;
      }
      assert members[..|members|] == members;
      return Some(values);
    }
  }

  /** The measure of a prefix never exceeds the measure of the whole. */
  lemma {:induction false} ItemsGrow(items: seq<RawJson>, n: nat)
    requires n <= |items|
    ensures ItemsDepth(items[..n]) <= ItemsDepth(items)
    ensures ItemsNodes(items[..n]) <= ItemsNodes(items)
    ensures ItemsUnambiguous(items) ==> ItemsUnambiguous(items[..n])
    decreases |items|
  {
    if n == |items| {
      assert items[..n] == items;
    } else {
      var front := items[..|items| - 1];
      ItemsGrow(front, n);
      assert front[..n] == items[..n];
    }
  }

  lemma {:induction false} MembersGrow(members: seq<Member>, n: nat)
    requires n <= |members|
    ensures MembersDepth(members[..n]) <= MembersDepth(members)
    ensures MembersNodes(members[..n]) <= MembersNodes(members)
    ensures MembersUnambiguous(members) ==> MembersUnambiguous(members[..n])
    decreases |members|
  {
    if n == |members| {
      assert members[..n] == members;
    } else {
      var front := members[..|members| - 1];
      MembersGrow(front, n);
      assert front[..n] == members[..n];
    }
  }

  /** The whole budgeted read of one tree. */
  method ParseBounded(t: RawJson, limits: JsonLimits) returns (r: Result<Value, ProxyError>)
    ensures r.Ok? <==> Depth(t) <= limits.depth && Nodes(t) <= limits.nodes && Unambiguous(t)
    ensures r.Ok? ==> r.value == ToValue(t)
    ensures r.Err? ==> || (r.error == DuplicateObjectKey && !Unambiguous(t))
                       || (r.error == JsonDepthLimitExceeded && Depth(t) > limits.depth)
                       || (r.error == JsonNodeLimitExceeded && Nodes(t) > limits.nodes)
  {
    var budget := new Budget(limits);
    var value := budget.Visit(t, 1);
    if value.Some? {
      return Ok(value.value);
    }
    match budget.violation
    case Some(DuplicateKey) => return Err(DuplicateObjectKey);
    case Some(TooDeep) => return Err(JsonDepthLimitExceeded);
    case Some(TooManyNodes) => return Err(JsonNodeLimitExceeded);
    case None => return Err(InvalidJson);
  }
}
