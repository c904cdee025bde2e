// helion/_argument_device.py: finding the first device in nested kernel arguments, and the
// resolver that caches the path to it.
module ArgumentDevice {
  import opened Options

  datatype Device = Device(kind: string, index: int)

  /** Dictionary keys are named by object identity; when two of them compare equal is up to them. */
  type Key = nat

  datatype Kind = LeafKind | ConstKind | SequenceKind | MappingKind | OpaqueKind

  /** A Python class: what isinstance says about its instances, and which class it is. */
  datatype PyClass = PyClass(kind: Kind, id: nat)

  /** Argument values. ConstExpr is a named tuple, so it has items too, but is never searched. */
  datatype Value =
    | Leaf(id: nat, device: Device)
    | Const(id: nat, items: seq<Value>)
    | Sequence(id: nat, items: seq<Value>)
    | Mapping(id: nat, keys: seq<Key>, values: seq<Value>)
    | Opaque(id: nat)

  function TypeOf(v: Value): PyClass {
    match v
    case Leaf(id, _) => PyClass(LeafKind, id)
    case Const(id, _) => PyClass(ConstKind, id)
    case Sequence(id, _) => PyClass(SequenceKind, id)
    case Mapping(id, _, _) => PyClass(MappingKind, id)
    case Opaque(id) => PyClass(OpaqueKind, id)
  }

  datatype Step =
    | SequenceStep(key: int, container: PyClass, position: int)
    | MappingStep(name: Key, container: PyClass, position: int)

  type Path = seq<Step>

  datatype Found = Found(device: Device, path: Path)

  predicate HasDevice(v: Value)
    decreases v, 1
  {
    match v
    case Leaf(_, _) => true
    case Const(_, _) => false
    case Sequence(_, items) => AnyDevice(items)
    case Mapping(_, keys, values) => AnyDevice(values)
    case Opaque(_) => false
  }

  // The traversals of the source.

  predicate AnyDevice(items: seq<Value>)
    decreases items, 0
  {
    items != [] && (HasDevice(items[0]) || AnyDevice(items[1..]))
  }

  function LeafDevice(v: Value): Option<Device> {
    if v.Leaf? then Some(v.device) else None
  }

  function VisitEntries(keys: seq<Key>, values: seq<Value>, position: nat, container: PyClass, path: Path): Option<Found>
    decreases values, 0
  {
    if values == [] then None
    else
      var name := if keys == [] then 0 else keys[0];
      var result := Visit(values[0], path + [MappingStep(name, container, position)]);
      if result.Some? then result
      else VisitEntries(if keys == [] then [] else keys[1..], values[1..], position + 1, container, path)
  }

  /** `visit` of _find_argument_device_with_path. */
  function Visit(v: Value, path: Path): Option<Found>
    decreases v, 1
  {
    match v
    case Leaf(_, device) => Some(Found(device, path))
    case Const(_, _) => None
    case Sequence(_, items) => VisitItems(items, 0, TypeOf(v), path)
    case Mapping(_, keys, values) => VisitEntries(keys, values, 0, TypeOf(v), path)
    case Opaque(_) => None
  }

  function VisitItems(items: seq<Value>, index: nat, container: PyClass, path: Path): Option<Found>
    decreases items, 0
  {
    if items == [] then None
    else
      var result := Visit(items[0], path + [SequenceStep(index, container, index)]);
      if result.Some? then result else VisitItems(items[1..], index + 1, container, path)
  }

  function Devices(v: Value): seq<Device>
    decreases v, 1
  {
    match v
    case Leaf(_, device) => [device]
    case Const(_, _) => []
    case Sequence(_, items) => AllDevices(items)
    case Mapping(_, keys, values) => AllDevices(values)
    case Opaque(_) => []
  }

  // The reference: all devices, in depth-first order.

  function AllDevices(items: seq<Value>): seq<Device>
    decreases items, 0
  {
    if items == [] then [] else Devices(items[0]) + AllDevices(items[1..])
  }

  function First(devices: seq<Device>): Option<Device> {
    if devices == [] then None else Some(devices[0])
  }

  lemma {:induction false} HasDeviceIffSome(v: Value)
    ensures HasDevice(v) <==> Devices(v) != []
    decreases v, 1
  {
    match v
    case Leaf(_, _) =>
    case Const(_, _) =>
    case Sequence(_, items) => AnyDeviceIffSome(items);
    case Mapping(_, keys, values) => AnyDeviceIffSome(values);
    case Opaque(_) =>
  }

  lemma {:induction false} AnyDeviceIffSome(items: seq<Value>)
    ensures AnyDevice(items) <==> AllDevices(items) != []
    decreases items, 0
  {
    if items != [] {
      HasDeviceIffSome(items[0]);
      AnyDeviceIffSome(items[1..]);
    }
  }

  function FoundDevice(found: Option<Found>): Option<Device> {
    if found.Some? then Some(found.value.device) else None
  }

  function FoundPath(found: Option<Found>): Option<Path> {
    if found.Some? then Some(found.value.path) else None
  }

  lemma {:induction false} VisitEntriesFindsFirst(keys: seq<Key>, values: seq<Value>, position: nat, container: PyClass, path: Path)
    ensures FoundDevice(VisitEntries(keys, values, position, container, path)) == First(AllDevices(values))
    decreases values, 0
  {
    if values != [] {
      var name := if keys == [] then 0 else keys[0];
      VisitFindsFirst(values[0], path + [MappingStep(name, container, position)]);
      VisitEntriesFindsFirst(if keys == [] then [] else keys[1..], values[1..], position + 1, container, path);
    }
  }

  /** The search finds the first device in depth-first order, and nothing exactly when there is none. */
  lemma {:induction false} VisitFindsFirst(v: Value, path: Path)
    ensures FoundDevice(Visit(v, path)) == First(Devices(v))
    decreases v, 1
  {
    match v
    case Leaf(_, _) =>
    case Const(_, _) =>
    case Sequence(_, items) => VisitItemsFindsFirst(items, 0, TypeOf(v), path);
    case Mapping(_, keys, values) => VisitEntriesFindsFirst(keys, values, 0, TypeOf(v), path);
    case Opaque(_) =>
  }

  lemma {:induction false} VisitItemsFindsFirst(items: seq<Value>, index: nat, container: PyClass, path: Path)
    ensures FoundDevice(VisitItems(items, index, container, path)) == First(AllDevices(items))
    decreases items, 0
  {
    if items != [] {
      VisitFindsFirst(items[0], path + [SequenceStep(index, container, index)]);
      VisitItemsFindsFirst(items[1..], index + 1, container, path);
    }
  }

  /** Every dictionary pairs each key with a value. */
  predicate WellFormed(v: Value)
    decreases v, 1
  {
    match v
    case Sequence(_, items) => AllWellFormed(items)
    case Const(_, items) => AllWellFormed(items)
    case Mapping(_, keys, values) => |keys| == |values| && AllWellFormed(values)
    case _ => true
  }

  predicate AllWellFormed(items: seq<Value>)
    decreases items, 0
  {
    items == [] || (WellFormed(items[0]) && AllWellFormed(items[1..]))
  }

  lemma {:induction false} WellFormedAt(items: seq<Value>, i: nat)
    requires AllWellFormed(items) && i < |items|
    ensures WellFormed(items[i])
  {
    if i > 0 {
      WellFormedAt(items[1..], i - 1);
    }
  }

  // Reading a cached path.

  /** One validated hop: the container type, the earlier siblings and the key must still fit. */
  function Follow(v: Value, step: Step, same: (Key, Key) -> bool): Option<Value>
    requires WellFormed(v)
  {
    if TypeOf(v) != step.container then None
    else match step
      case SequenceStep(key, _, _) =>
        if !v.Sequence? && !v.Const? then None
        else if key < 0 || key >= |v.items| then None
        else if AnyDevice(v.items[..key]) then None
        else Some(v.items[key])
      case MappingStep(name, _, position) =>
        if !v.Mapping? || position < 0 || position >= |v.values| then None
        else if AnyDevice(v.values[..position]) then None
        else if v.keys[position] != name && !same(v.keys[position], name) then None
        else Some(v.values[position])
  }

  lemma FollowStaysWellFormed(v: Value, step: Step, same: (Key, Key) -> bool)
    requires WellFormed(v)
    ensures Follow(v, step, same).Some? ==> WellFormed(Follow(v, step, same).value)
  {
    if Follow(v, step, same).Some? {
      match step
      case SequenceStep(key, _, _) => WellFormedAt(v.items, key);
      case MappingStep(_, _, position) => WellFormedAt(v.values, position);
    }
  }

  /** What _device_at_path computes, as a recursion over the path. */
  function DeviceAt(v: Value, path: Path, same: (Key, Key) -> bool): Option<Device>
    requires WellFormed(v)
    decreases |path|
  {
    if path == [] then LeafDevice(v)
    else
      var next := Follow(v, path[0], same);
      if next.None? then None
      else
        FollowStaysWellFormed(v, path[0], same);
        DeviceAt(next.value, path[1..], same)
  }

  lemma {:induction false} AnyDevicePrefix(items: seq<Value>, n: nat)
    requires n < |items|
    ensures AnyDevice(items[..n + 1]) <==> AnyDevice(items[..n]) || HasDevice(items[n])
  {
    if n > 0 {
      AnyDevicePrefix(items[1..], n - 1);
      assert items[..n + 1][1..] == items[1..][..n];
      assert items[..n][1..] == items[1..][..n - 1];
    }
  }

  lemma {:induction false} LaterPrefixHasDevice(items: seq<Value>, m: nat, n: int)
    requires m <= |items| && AnyDevice(items[..m])
    ensures m <= n <= |items| ==> AnyDevice(items[..n])
    decreases n
  {
    if m < n <= |items| {
      LaterPrefixHasDevice(items, m, n - 1);
      AnyDevicePrefix(items, n - 1);
    }
  }

  /** The loop of _device_at_path. */
  method DeviceAtPath(values: Value, path: Path, same: (Key, Key) -> bool) returns (device: Option<Device>)
    requires WellFormed(values)
    ensures device == DeviceAt(values, path, same)
  {
    var value := values;
    var i := 0;
    while i < |path|
      invariant 0 <= i <= |path|
      invariant WellFormed(value)
      invariant DeviceAt(values, path, same) == DeviceAt(value, path[i..], same)
    {
      var step := path[i];
      assert path[i..][0] == step && path[i..][1..] == path[i + 1..];
      FollowStaysWellFormed(value, step, same);
      if TypeOf(value) != step.container {
        return None;
      }
      match step {
        case SequenceStep(key, _, _) =>
          if !value.Sequence? && !value.Const? {
            return None;
          }
          if key < 0 || key >= |value.items| || AnyDevice(value.items[..key]) {
            return None;
          }
          value := value.items[key];
        case MappingStep(name, _, wanted) =>
          if !value.Mapping? {
            return None;
          }
          var position := 0;
          var item := None;
          while position < |value.values|
            invariant 0 <= position <= |value.values|
            invariant !AnyDevice(value.values[..position])
            invariant item.None? && (wanted >= 0 ==> position <= wanted)
          {
            if position == wanted {
              if value.keys[position] != name && !same(value.keys[position], name) {
                return None;
              }
              item := Some(value.values[position]);
              break;
            }
            AnyDevicePrefix(value.values, position);
            if HasDevice(value.values[position]) {
              LaterPrefixHasDevice(value.values, position + 1, wanted);
              return None;
            }
            position := position + 1;
          }
          if item.None? {
            return None;
          }
          value := item.value;
      }
      i := i + 1;
    }
    device := LeafDevice(value);
  }

  /** The invariant of cached paths: they never pass through a ConstExpr or a leaf. */
  predicate Searchable(path: Path) {
    forall i :: 0 <= i < |path| ==>
      path[i].container.kind == (if path[i].SequenceStep? then SequenceKind else MappingKind)
  }

  /** A cached step and the step of a fresh search at the same place: same container and position, matching keys. */
  predicate StepAgrees(cached: Step, now: Step, same: (Key, Key) -> bool) {
    && cached.container == now.container
    && if cached.SequenceStep? then now.SequenceStep? && cached.key == now.key
       else now.MappingStep? && cached.position == now.position && (now.name == cached.name || same(now.name, cached.name))
  }

  predicate Agrees(cached: Path, now: Path, same: (Key, Key) -> bool) {
    |cached| == |now| && forall i :: 0 <= i < |cached| ==> StepAgrees(cached[i], now[i], same)
  }

  lemma {:induction false} SkipItems(items: seq<Value>, k: nat, index: nat, container: PyClass, path: Path)
    requires k <= |items| && !AnyDevice(items[..k])
    ensures VisitItems(items, index, container, path) == VisitItems(items[k..], index + k, container, path)
    decreases k
  {
    if k == 0 {
      assert items[0..] == items;
    } else {
      assert items[..k][0] == items[0] && items[..k][1..] == items[1..][..k - 1];
      HasDeviceIffSome(items[0]);
      VisitFindsFirst(items[0], path + [SequenceStep(index, container, index)]);
      SkipItems(items[1..], k - 1, index + 1, container, path);
      assert items[1..][k - 1..] == items[k..];
    }
  }

  lemma {:induction false} SkipEntries(keys: seq<Key>, values: seq<Value>, k: nat, position: nat, container: PyClass, path: Path)
    requires k <= |values| == |keys| && !AnyDevice(values[..k])
    ensures VisitEntries(keys, values, position, container, path) == VisitEntries(keys[k..], values[k..], position + k, container, path)
    decreases k
  {
    if k == 0 {
      assert values[0..] == values && keys[0..] == keys;
    } else {
      assert values[..k][0] == values[0] && values[..k][1..] == values[1..][..k - 1];
      HasDeviceIffSome(values[0]);
      VisitFindsFirst(values[0], path + [MappingStep(keys[0], container, position)]);
      SkipEntries(keys[1..], values[1..], k - 1, position + 1, container, path);
      assert values[1..][k - 1..] == values[k..] && keys[1..][k - 1..] == keys[k..];
    }
  }

  /** A path that still validates leads to the device a full search would find, and agrees with the path of that search. */
  lemma {:induction false} CachedPathIsFresh(v: Value, path: Path, prefix: Path, prefix': Path, same: (Key, Key) -> bool)
    requires WellFormed(v) && Searchable(path)
    requires Agrees(prefix, prefix', same)
    requires DeviceAt(v, path, same).Some?
    ensures var again := Visit(v, prefix');
            && again.Some? && again.value.device == DeviceAt(v, path, same).value
            && Agrees(prefix + path, again.value.path, same)
    decreases |path|
  {
    if path == [] {
      assert prefix + path == prefix;
    } else {
      var step, rest := path[0], path[1..];
      var next := Follow(v, step, same).value;
      FollowStaysWellFormed(v, step, same);
      assert step.container.kind == if step.SequenceStep? then SequenceKind else MappingKind;
      assert forall i :: 0 <= i < |rest| ==> rest[i] == path[i + 1];
      assert prefix + path == prefix + [step] + rest;
      match step
      case SequenceStep(key, _, _) =>
        var hop := SequenceStep(key, TypeOf(v), key);
        assert StepAgrees(step, hop, same);
        SkipItems(v.items, key, 0, TypeOf(v), prefix');
        CachedPathIsFresh(next, rest, prefix + [step], prefix' + [hop], same);
        assert v.items[key..][0] == next;
      case MappingStep(_, _, position) =>
        var hop := MappingStep(v.keys[position], TypeOf(v), position);
        assert StepAgrees(step, hop, same);
        SkipEntries(v.keys, v.values, position, 0, TypeOf(v), prefix');
        CachedPathIsFresh(next, rest, prefix + [step], prefix' + [hop], same);
        assert v.values[position..][0] == next && v.keys[position..][0] == v.keys[position];
    }
  }

  lemma PathTail(path: Path, prefix: Path, step: Step)
    requires prefix + [step] <= path
    ensures prefix <= path
    ensures path[|prefix|..] == [step] + path[|prefix + [step]|..]
    ensures path[|prefix|..][0] == step && path[|prefix|..][1..] == path[|prefix + [step]|..]
  {
    assert path[|prefix|] == step;
  }

  lemma {:induction false} FreshEntriesValidate(v: Value, position: nat, prefix: Path, same: (Key, Key) -> bool)
    requires WellFormed(v) && v.Mapping? && position <= |v.values|
    requires !AnyDevice(v.values[..position])
    requires VisitEntries(v.keys[position..], v.values[position..], position, TypeOf(v), prefix).Some?
    ensures var found := VisitEntries(v.keys[position..], v.values[position..], position, TypeOf(v), prefix).value;
            && prefix <= found.path
            && Searchable(found.path[|prefix|..])
            && DeviceAt(v, found.path[|prefix|..], same) == Some(found.device)
    decreases v, 0, |v.values| - position
  {
    var item, step := v.values[position], MappingStep(v.keys[position], TypeOf(v), position);
    assert v.values[position..][0] == item && v.values[position..][1..] == v.values[position + 1..];
    assert v.keys[position..][0] == v.keys[position] && v.keys[position..][1..] == v.keys[position + 1..];
    var result := Visit(item, prefix + [step]);
    WellFormedAt(v.values, position);
    if result.Some? {
      FreshPathValidates(item, prefix + [step], same);
      PathTail(result.value.path, prefix, step);
      assert Follow(v, step, same) == Some(item);
    } else {
      HasDeviceIffSome(item);
      VisitFindsFirst(item, prefix + [step]);
      AnyDevicePrefix(v.values, position);
      FreshEntriesValidate(v, position + 1, prefix, same);
    }
  }

  /** A fresh path never passes through a ConstExpr or a leaf, extends its prefix, and validates. */
  lemma {:induction false} FreshPathValidates(v: Value, prefix: Path, same: (Key, Key) -> bool)
    requires WellFormed(v) && Visit(v, prefix).Some?
    ensures var found := Visit(v, prefix).value;
            && prefix <= found.path
            && Searchable(found.path[|prefix|..])
            && DeviceAt(v, found.path[|prefix|..], same) == Some(found.device)
    decreases v, 1
  {
    match v
    case Leaf(_, _) =>
    case Sequence(_, items) => FreshItemsValidate(v, 0, prefix, same);
    case Mapping(_, keys, values) => FreshEntriesValidate(v, 0, prefix, same);
  }

  lemma {:induction false} FreshItemsValidate(v: Value, index: nat, prefix: Path, same: (Key, Key) -> bool)
    requires WellFormed(v) && v.Sequence? && index <= |v.items|
    requires !AnyDevice(v.items[..index])
    requires VisitItems(v.items[index..], index, TypeOf(v), prefix).Some?
    ensures var found := VisitItems(v.items[index..], index, TypeOf(v), prefix).value;
            && prefix <= found.path
            && Searchable(found.path[|prefix|..])
            && DeviceAt(v, found.path[|prefix|..], same) == Some(found.device)
    decreases v, 0, |v.items| - index
  {
    var item, step := v.items[index], SequenceStep(index, TypeOf(v), index);
    assert v.items[index..][0] == item && v.items[index..][1..] == v.items[index + 1..];
    var result := Visit(item, prefix + [step]);
    WellFormedAt(v.items, index);
    if result.Some? {
      FreshPathValidates(item, prefix + [step], same);
      PathTail(result.value.path, prefix, step);
      assert Follow(v, step, same) == Some(item);
    } else {
      HasDeviceIffSome(item);
      VisitFindsFirst(item, prefix + [step]);
      AnyDevicePrefix(v.items, index);
      FreshItemsValidate(v, index + 1, prefix, same);
    }
  }

  const EXACT: (Key, Key) -> bool := (_, _) => false

  /** A path that agrees with one of exact keys leads to the same device. */
  lemma {:induction false} AgreeingPathValidates(v: Value, path: Path, now: Path, same: (Key, Key) -> bool)
    requires WellFormed(v) && Agrees(path, now, same)
    requires DeviceAt(v, now, EXACT).Some?
    ensures DeviceAt(v, path, same) == DeviceAt(v, now, EXACT)
    decreases |path|
  {
    if path != [] {
      assert StepAgrees(path[0], now[0], same);
      FollowStaysWellFormed(v, now[0], EXACT);
      var next := Follow(v, now[0], EXACT).value;
      assert Follow(v, path[0], same) == Some(next);
      assert forall i :: 0 <= i < |path[1..]| ==> path[1..][i] == path[i + 1] && now[1..][i] == now[i + 1];
      AgreeingPathValidates(next, path[1..], now[1..], same);
    }
  }

  /** A cached path validates exactly when it agrees with the path that a full search finds now. */
  lemma ValidatesIffAgrees(v: Value, path: Path, same: (Key, Key) -> bool)
    requires WellFormed(v) && Searchable(path)
    ensures DeviceAt(v, path, same).Some? <==> Visit(v, []).Some? && Agrees(path, Visit(v, []).value.path, same)
  {
    if DeviceAt(v, path, same).Some? {
      CachedPathIsFresh(v, path, [], [], same);
      assert [] + path == path;
    }
    if Visit(v, []).Some? && Agrees(path, Visit(v, []).value.path, same) {
      var now := Visit(v, []).value.path;
      FreshPathValidates(v, [], EXACT);
      assert now[0..] == now;
      AgreeingPathValidates(v, path, now, same);
    }
  }

  /** Without the invariant a cached path could enter a ConstExpr and return a device no search finds. */
  lemma ConstExprPathWouldBeWrong(device: Device, same: (Key, Key) -> bool)
    ensures var v := Const(0, [Leaf(1, device)]);
            var path := [SequenceStep(0, TypeOf(v), 0)];
            && WellFormed(v) && !Searchable(path)
            && DeviceAt(v, path, same) == Some(device) && Visit(v, []) == None
  {
    var v := Const(0, [Leaf(1, device)]);
    var step := SequenceStep(0, TypeOf(v), 0);
    assert v.items[1..] == [] && AllWellFormed(v.items[1..]);
    assert WellFormed(v.items[0]);
    assert v.items[..0] == [];
    assert Follow(v, step, same) == Some(Leaf(1, device));
    assert [step][1..] == [];
    assert [step][0].container.kind == ConstKind;
  }

  // The resolver.

  class Resolver {
    var path: Option<Path>
    const canonicalize: Device -> Device
    const same: (Key, Key) -> bool

    /** True of the fresh resolver and kept by every call. */
    predicate Valid()
      reads this
    {
      path.Some? ==> Searchable(path.value)
    }

    constructor (canonicalize: Device -> Device, same: (Key, Key) -> bool)
      ensures Valid() && path == None
      ensures this.canonicalize == canonicalize && this.same == same
    {
      this.path := None;
      this.canonicalize := canonicalize;
      this.same := same;
    }

    /** from_values: searches at once, and fails (None) when there is no device: exc.NoTensorArgs. */
    static method FromValues(values: Value, canonicalize: Device -> Device, same: (Key, Key) -> bool) returns (r: Option<Resolver>)
      requires WellFormed(values)
      ensures r.None? <==> Devices(values) == []
      ensures r.Some? ==> fresh(r.value) && r.value.Valid() && r.value.path == FoundPath(Visit(values, []))
      ensures r.Some? ==> r.value.canonicalize == canonicalize && r.value.same == same
    {
      VisitFindsFirst(values, []);
      var result := Visit(values, []);
      if result.None? {
        return None;
      }
      FreshPathValidates(values, [], same);
      assert result.value.path[0..] == result.value.path;
      var resolver := new Resolver(canonicalize, same);
      resolver.path := Some(result.value.path);
      return Some(resolver);
    }

    /**
     * Whatever arguments come, the answer is the canonical form of the first device in
     * depth-first order, and the stored path is one that finds it again.
     */
    method Resolve(values: Value) returns (device: Option<Device>)
      requires Valid() && WellFormed(values)
      modifies this
      ensures Valid()
      ensures device == match First(Devices(values)) case None => None case Some(d) => Some(canonicalize(d))
      ensures path.None? <==> Devices(values) == []
      ensures path.Some? ==>
                && DeviceAt(values, path.value, same) == First(Devices(values))
                && FoundPath(Visit(values, [])).Some?
                && Agrees(path.value, FoundPath(Visit(values, [])).value, same)
      ensures old(path).Some? && DeviceAt(values, old(path).value, same).Some? ==> path == old(path)
    {
      VisitFindsFirst(values, []);
      var found := None;
      if path.Some? {
        found := DeviceAtPath(values, path.value, same);
      }
      if found.None? {
        var result := Visit(values, []);
        if result.None? {
          path := None;
          return None;
        }
        FreshPathValidates(values, [], same);
        assert result.value.path[0..] == result.value.path;
        found, path := Some(result.value.device), Some(result.value.path);
      } else {
        CachedPathIsFresh(values, path.value, [], [], same);
        assert [] + path.value == path.value;
      }
      device := Some(canonicalize(found.value));
    }
  }

  /** _find_argument_device: the shortcut for a leading leaf agrees with the full search. */
  function FindArgumentDevice(values: Value): Option<Device>
    requires values.Sequence?
  {
    if values.items != [] && LeafDevice(values.items[0]).Some? then LeafDevice(values.items[0])
    else FoundDevice(Visit(values, []))
  }

  lemma FindArgumentDeviceIsFirst(values: Value)
    requires values.Sequence?
    ensures FindArgumentDevice(values) == First(Devices(values))
  {
    VisitFindsFirst(values, []);
    if values.items != [] && values.items[0].Leaf? {
      assert Devices(values) == AllDevices(values.items) == [values.items[0].device] + AllDevices(values.items[1..]);
    }
  }
}
