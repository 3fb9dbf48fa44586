/**
 * Descriptors of an AVDECC entity (section 7 of IEEE 1722.1-2013), as far as enumeration reads them, and which
 * reads a received descriptor leads to (`background_read_deduce_next` of controller/lib/src/end_station_imp.cpp).
 */
module EntityModel {
  import opened Basics

  /** The types with a case in `desc_index_from_frame`; any other type keeps its code. */
  datatype DescType =
    | Entity | Configuration | AudioUnit | StreamInput | StreamOutput | JackInput | JackOutput | AvbInterface
    | ClockSource | MemoryObject | Locale | Strings | StreamPortInput | StreamPortOutput | ExternalPortInput
    | ExternalPortOutput | AudioCluster | AudioMap | ClockDomain | Control | Unsupported(code: uint16)

  datatype Key = Key(descType: DescType, index: uint16)

  const ENTITY: Key := Key(Entity, 0)
  const CONFIGURATION: Key := Key(Configuration, 0)

  /** A run of consecutive descriptors. */
  datatype Block = Block(base: uint16, count: uint16)

  datatype DescCount = DescCount(descType: DescType, count: uint16)

  /** Every field that enumeration reads; a descriptor of one type uses only some of them. */
  datatype Contents = Contents(
    currentConfiguration: uint16,
    counts: seq<DescCount>,
    strings: Block,
    streamInputPorts: Block,
    streamOutputPorts: Block,
    externalInputPorts: Block,
    externalOutputPorts: Block,
    controls: Block,
    clusters: Block,
    maps: Block)

  const NOTHING: Contents :=
    Contents(0, [], Block(0, 0), Block(0, 0), Block(0, 0), Block(0, 0), Block(0, 0), Block(0, 0), Block(0, 0),
             Block(0, 0))

  /** One request for each descriptor of a block; the index is truncated to 16 bits. */
  function BlockKeys(descType: DescType, block: Block): (keys: seq<Key>)
    ensures |keys| == block.count
    ensures forall i :: 0 <= i < |keys| ==> keys[i] == Key(descType, (block.base + i) % TWO_16)
  {
    seq(block.count, (i: nat) => Key(descType, (block.base + i) % TWO_16))
  }

  function CountKeys(counts: seq<DescCount>): seq<Key> {
    if counts == [] then []
    else
      var last := counts[|counts| - 1];
      CountKeys(counts[..|counts| - 1]) + BlockKeys(last.descType, Block(0, last.count))
  }

  /**
   * The reads that a descriptor leads to.  `strings` is the number of strings of the locale that the source looks
   * at, which is always the first one; their base is taken to be 0.
   */
  function Reads(descType: DescType, c: Contents, strings: uint16): seq<Key> {
    match descType
    case Entity => BlockKeys(Configuration, Block(0, 1))
    case Configuration => CountKeys(c.counts)
    case Locale => BlockKeys(Strings, Block(0, strings))
    case AudioUnit =>
      BlockKeys(StreamPortInput, c.streamInputPorts) + BlockKeys(StreamPortOutput, c.streamOutputPorts) +
      BlockKeys(ExternalPortInput, c.externalInputPorts) + BlockKeys(ExternalPortOutput, c.externalOutputPorts) +
      BlockKeys(Control, c.controls)
    case StreamPortInput =>
      BlockKeys(Control, c.controls) + BlockKeys(AudioCluster, c.clusters) + BlockKeys(AudioMap, c.maps)
    case StreamPortOutput =>
      BlockKeys(Control, c.controls) + BlockKeys(AudioCluster, c.clusters) + BlockKeys(AudioMap, c.maps)
    case _ => []
  }

  // ------------------------------------------------------------------------------------------------ devices

  /** The descriptors that an entity answers with. */
  type Device = map<Key, Contents>

  function At(dev: Device, key: Key): Contents {
    if key in dev then dev[key] else NOTHING
  }

  function Children(dev: Device, key: Key): seq<Key> {
    Reads(key.descType, At(dev, key), At(dev, Key(Locale, 0)).strings.count)
  }

  // --------------------------------------------------------------------------------------- who is whose child

  /**
   * The block of descriptors of type `t` that a descriptor of type `parent` with contents `c` names, which is empty if
   * it names none; `strings` is the number of strings of locale 0.  A configuration names blocks by its counts instead.
   */
  function NamedBlock(parent: DescType, c: Contents, strings: uint16, t: DescType): Block {
    match (parent, t)
    case (Entity, Configuration) => Block(0, 1)
    case (Locale, Strings) => Block(0, strings)
    case (AudioUnit, StreamPortInput) => c.streamInputPorts
    case (AudioUnit, StreamPortOutput) => c.streamOutputPorts
    case (AudioUnit, ExternalPortInput) => c.externalInputPorts
    case (AudioUnit, ExternalPortOutput) => c.externalOutputPorts
    case (AudioUnit, Control) => c.controls
    case (StreamPortInput, Control) => c.controls
    case (StreamPortInput, AudioCluster) => c.clusters
    case (StreamPortInput, AudioMap) => c.maps
    case (StreamPortOutput, Control) => c.controls
    case (StreamPortOutput, AudioCluster) => c.clusters
    case (StreamPortOutput, AudioMap) => c.maps
    case _ => Block(0, 0)
  }

  /** Descriptor number `n` of a block has this index, counted on from the base in 16 bits. */
  predicate IsNumber(index: uint16, block: Block, n: nat) {
    n < block.count && index == (block.base + n) % 0x1_0000
  }

  ghost predicate IsInBlock(index: uint16, block: Block) {
    exists n: nat :: IsNumber(index, block, n)
  }

  /** Whether a descriptor of the device belongs to another one, by the blocks and counts that one names. */
  ghost predicate IsChild(dev: Device, parent: Key, child: Key) {
    var c := At(dev, parent);
    if parent.descType == Configuration then
      exists j :: 0 <= j < |c.counts| && c.counts[j].descType == child.descType && child.index < c.counts[j].count
    else
      IsInBlock(child.index, NamedBlock(parent.descType, c, At(dev, Key(Locale, 0)).strings.count, child.descType))
  }

  lemma BlockMembers(t: DescType, block: Block, key: Key)
    ensures key in BlockKeys(t, block) <==> key.descType == t && IsInBlock(key.index, block)
  {
    var keys := BlockKeys(t, block);
    if key.descType == t && IsInBlock(key.index, block) {
      var n: nat :| IsNumber(key.index, block, n);
      assert keys[n] == key;
    }
    if key in keys {
      var n :| 0 <= n < |keys| && keys[n] == key;
      assert IsNumber(key.index, block, n);
    }
  }

  lemma {:induction false} CountMembers(counts: seq<DescCount>, key: Key)
    ensures key in CountKeys(counts) <==>
            exists j :: 0 <= j < |counts| && counts[j].descType == key.descType && key.index < counts[j].count
  {
    if counts != [] {
      var n := |counts| - 1;
      CountMembers(counts[..n], key);
      BlockMembers(counts[n].descType, Block(0, counts[n].count), key);
      assert key.index < counts[n].count ==> IsNumber(key.index, Block(0, counts[n].count), key.index);
      assert forall j :: 0 <= j < n ==> counts[..n][j] == counts[j];
    }
  }

  /** Whatever descriptor is found, it leads to the reads of what it names, and of nothing else. */
  lemma ReadsAreNamed(parent: DescType, c: Contents, strings: uint16, child: Key)
    requires parent != Configuration
    ensures child in Reads(parent, c, strings) <==>
            IsInBlock(child.index, NamedBlock(parent, c, strings, child.descType))
  {
    hide BlockKeys, IsInBlock;
    NothingNamed(child.index);
    match parent
    case Entity => BlockMembers(Configuration, Block(0, 1), child);
    case Locale => BlockMembers(Strings, Block(0, strings), child);
    case AudioUnit =>
      BlockMembers(StreamPortInput, c.streamInputPorts, child);
      BlockMembers(StreamPortOutput, c.streamOutputPorts, child);
      BlockMembers(ExternalPortInput, c.externalInputPorts, child);
      BlockMembers(ExternalPortOutput, c.externalOutputPorts, child);
      BlockMembers(Control, c.controls, child);
    case StreamPortInput => PortMembers(c, child);
    case StreamPortOutput => PortMembers(c, child);
    case _ =>
  }

  lemma NothingNamed(index: uint16)
    ensures !IsInBlock(index, Block(0, 0))
  {
  }

  lemma PortMembers(c: Contents, child: Key)
    ensures child in BlockKeys(Control, c.controls) + BlockKeys(AudioCluster, c.clusters) + BlockKeys(AudioMap, c.maps)
       <==> || (child.descType == Control && IsInBlock(child.index, c.controls))
            || (child.descType == AudioCluster && IsInBlock(child.index, c.clusters))
            || (child.descType == AudioMap && IsInBlock(child.index, c.maps))
  {
    hide BlockKeys, IsInBlock;
    BlockMembers(Control, c.controls, child);
    BlockMembers(AudioCluster, c.clusters, child);
    BlockMembers(AudioMap, c.maps, child);
  }

  /** The reads that a descriptor leads to are those of its children, and of nothing else. */
  lemma ChildrenAreReads(dev: Device, parent: Key, child: Key)
    ensures child in Children(dev, parent) <==> IsChild(dev, parent, child)
  {
    if parent.descType == Configuration {
      CountMembers(At(dev, parent).counts, child);
    } else {
      ReadsAreNamed(parent.descType, At(dev, parent), At(dev, Key(Locale, 0)).strings.count, child);
    }
  }

  /** The indices of the keys of one type, in order. */
  function IndicesOf(keys: seq<Key>, t: DescType): seq<nat> {
    if keys == [] then []
    else
      var last := keys[|keys| - 1];
      IndicesOf(keys[..|keys| - 1], t) + if last.descType == t then [last.index as nat] else []
  }

  lemma {:induction false} IndicesAppend(a: seq<Key>, b: seq<Key>, t: DescType)
    ensures IndicesOf(a + b, t) == IndicesOf(a, t) + IndicesOf(b, t)
  {
    if b == [] {
      assert a + b == a;
    } else {
      assert (a + b)[..|a + b| - 1] == a + b[..|b| - 1];
      IndicesAppend(a, b[..|b| - 1], t);
    }
  }

  /** The turn that a type has among the reads of an audio unit or stream port. */
  function Place(t: DescType): nat {
    match t
    case StreamPortInput => 0
    case StreamPortOutput => 1
    case ExternalPortInput => 2
    case ExternalPortOutput => 3
    case Control => 4
    case AudioCluster => 5
    case AudioMap => 6
    case _ => 7
  }

  ghost predicate TakesTurns(keys: seq<Key>) {
    forall i, j :: 0 <= i <= j < |keys| ==> Place(keys[i].descType) <= Place(keys[j].descType)
  }

  ghost predicate NoneLater(keys: seq<Key>, place: nat) {
    forall i :: 0 <= i < |keys| ==> Place(keys[i].descType) <= place
  }

  function NumbersOf(block: Block): (numbers: seq<nat>)
    ensures |numbers| == block.count
    ensures forall n :: 0 <= n < block.count ==> numbers[n] == (block.base + n) % 0x1_0000
  {
    seq(block.count, (n: nat) => (block.base + n) % 0x1_0000)
  }

  lemma {:induction false} IndicesOfBlock(u: DescType, block: Block, t: DescType)
    ensures IndicesOf(BlockKeys(u, block), t) == if u == t then NumbersOf(block) else []
    decreases block.count
  {
    if block.count > 0 {
      var fewer := Block(block.base, block.count - 1);
      IndicesOfBlock(u, fewer, t);
      assert BlockKeys(u, block)[..block.count - 1] == BlockKeys(u, fewer);
      assert NumbersOf(block) == NumbersOf(fewer) + [(block.base + block.count - 1) % 0x1_0000];
    }
  }

  lemma OrderOfOneMore(keys: seq<Key>, u: DescType, block: Block)
    requires TakesTurns(keys) && NoneLater(keys, Place(u))
    ensures TakesTurns(keys + BlockKeys(u, block))
    ensures forall place :: place >= Place(u) ==> NoneLater(keys + BlockKeys(u, block), place)
  {
    hide Place;
    var all := keys + BlockKeys(u, block);
    assert forall i :: 0 <= i < |all| ==> if i < |keys| then all[i] == keys[i] else all[i].descType == u;
  }

  /** A further block behind reads of types that come before. */
  lemma OneMoreBlock(keys: seq<Key>, u: DescType, block: Block, t: DescType)
    requires TakesTurns(keys) && NoneLater(keys, Place(u))
    ensures TakesTurns(keys + BlockKeys(u, block))
    ensures forall place :: place >= Place(u) ==> NoneLater(keys + BlockKeys(u, block), place)
    ensures u != t ==> IndicesOf(keys + BlockKeys(u, block), t) == IndicesOf(keys, t)
    ensures u == t && IndicesOf(keys, t) == [] ==> IndicesOf(keys + BlockKeys(u, block), t) == NumbersOf(block)
  {
    hide IndicesOf, TakesTurns, NoneLater, Place;
    OrderOfOneMore(keys, u, block);
    IndicesAppend(keys, BlockKeys(u, block), t);
    IndicesOfBlock(u, block, t);
    assert IndicesOf(keys, t) + [] == IndicesOf(keys, t) && [] + NumbersOf(block) == NumbersOf(block);
  }

  lemma FirstBlock(u: DescType, block: Block, t: DescType)
    ensures var keys := BlockKeys(u, block);
            && TakesTurns(keys) && (forall place :: place >= Place(u) ==> NoneLater(keys, place))
            && IndicesOf(keys, t) == if u == t then NumbersOf(block) else []
  {
    OneMoreBlock([], u, block, t);
    assert [] + BlockKeys(u, block) == BlockKeys(u, block);
  }

  lemma PortReadsInOrder(c: Contents, t: DescType)
    ensures var keys :=
              BlockKeys(Control, c.controls) + BlockKeys(AudioCluster, c.clusters) + BlockKeys(AudioMap, c.maps);
            && TakesTurns(keys)
            && IndicesOf(keys, t) == match t
                                     case Control => NumbersOf(c.controls)
                                     case AudioCluster => NumbersOf(c.clusters)
                                     case AudioMap => NumbersOf(c.maps)
                                     case _ => []
  {
    hide BlockKeys, TakesTurns, NoneLater, IndicesOf;
    FirstBlock(Control, c.controls, t);
    OneMoreBlock(BlockKeys(Control, c.controls), AudioCluster, c.clusters, t);
    OneMoreBlock(BlockKeys(Control, c.controls) + BlockKeys(AudioCluster, c.clusters), AudioMap, c.maps, t);
  }

  lemma UnitReadsInOrder(c: Contents, t: DescType)
    ensures var keys := Reads(AudioUnit, c, 0);
            && TakesTurns(keys)
            && IndicesOf(keys, t) == match t
                                     case StreamPortInput => NumbersOf(c.streamInputPorts)
                                     case StreamPortOutput => NumbersOf(c.streamOutputPorts)
                                     case ExternalPortInput => NumbersOf(c.externalInputPorts)
                                     case ExternalPortOutput => NumbersOf(c.externalOutputPorts)
                                     case Control => NumbersOf(c.controls)
                                     case _ => []
  {
    hide BlockKeys, TakesTurns, NoneLater, IndicesOf;
    var ins, outs := BlockKeys(StreamPortInput, c.streamInputPorts), BlockKeys(StreamPortOutput, c.streamOutputPorts);
    var extIns := BlockKeys(ExternalPortInput, c.externalInputPorts);
    var extOuts := BlockKeys(ExternalPortOutput, c.externalOutputPorts);
    FirstBlock(StreamPortInput, c.streamInputPorts, t);
    OneMoreBlock(ins, StreamPortOutput, c.streamOutputPorts, t);
    OneMoreBlock(ins + outs, ExternalPortInput, c.externalInputPorts, t);
    OneMoreBlock(ins + outs + extIns, ExternalPortOutput, c.externalOutputPorts, t);
    OneMoreBlock(ins + outs + extIns + extOuts, Control, c.controls, t);
  }

  /**
   * Apart from configurations, whatever descriptor is found: the reads of each type are those of the block it names for
   * that type, once each and in the order of the block, and the types take turns.
   */
  lemma ReadsInOrder(parent: DescType, c: Contents, strings: uint16, t: DescType)
    requires parent != Configuration
    ensures var block, indices := NamedBlock(parent, c, strings, t), IndicesOf(Reads(parent, c, strings), t);
            && |indices| == block.count
            && forall n :: 0 <= n < block.count ==> indices[n] == (block.base + n) % 0x1_0000
    ensures TakesTurns(Reads(parent, c, strings))
  {
    hide TakesTurns, IndicesOf;
    NoReads(t);
    match parent
    case Entity => FirstBlock(Configuration, Block(0, 1), t);
    case Locale => FirstBlock(Strings, Block(0, strings), t);
    case AudioUnit => UnitReadsInOrder(c, t);
    case StreamPortInput => PortReadsInOrder(c, t);
    case StreamPortOutput => PortReadsInOrder(c, t);
    case _ =>
  }

  lemma NoReads(t: DescType)
    ensures TakesTurns([]) && IndicesOf([], t) == []
  {
  }

  /** How many descriptors the first `j` counts of a configuration add up to. */
  function CountBefore(counts: seq<DescCount>, j: nat): nat
    requires j <= |counts|
  {
    if j == 0 then 0 else CountBefore(counts, j - 1) + counts[j - 1].count
  }

  /** The reads of a configuration follow its counts, each counted from 0. */
  lemma {:induction false} CountsInOrder(counts: seq<DescCount>, j: nat, n: nat)
    requires j < |counts| && n < counts[j].count
    ensures |CountKeys(counts)| == CountBefore(counts, |counts|)
    ensures CountBefore(counts, j) + n < |CountKeys(counts)|
    ensures CountKeys(counts)[CountBefore(counts, j) + n] == Key(counts[j].descType, n)
  {
    CountsAddUp(counts, |counts|);
    CountsAddUp(counts, j);
    CountsPrefix(counts, j + 1);
    assert counts[..j + 1][..j] == counts[..j];
  }

  lemma {:induction false} CountsAddUp(counts: seq<DescCount>, j: nat)
    requires j <= |counts|
    ensures |CountKeys(counts[..j])| == CountBefore(counts, j)
    ensures j == |counts| ==> |CountKeys(counts)| == CountBefore(counts, j)
  {
    if j > 0 {
      CountsAddUp(counts, j - 1);
      assert counts[..j][..j - 1] == counts[..j - 1];
    }
    assert j == |counts| ==> counts[..j] == counts;
  }

  lemma {:induction false} CountsPrefix(counts: seq<DescCount>, j: nat)
    requires j <= |counts|
    ensures CountKeys(counts[..j]) <= CountKeys(counts)
  {
    if j == |counts| {
      assert counts[..j] == counts;
    } else {
      var front := counts[..|counts| - 1];
      CountsPrefix(front, j);
      assert front[..j] == counts[..j];
    }
  }

  // --------------------------------------------------------------------------------------------- reachability

  /** `path` leads from ENTITY 0 to its last descriptor, each one being a child of the one before it. */
  ghost predicate IsPath(dev: Device, path: seq<Key>) {
    && |path| > 0
    && path[0] == ENTITY
    && forall i :: 0 < i < |path| ==> IsChild(dev, path[i - 1], path[i])
  }

  ghost predicate Reachable(dev: Device, key: Key) {
    exists path :: IsPath(dev, path) && path[|path| - 1] == key
  }

  lemma ChildIsReachable(dev: Device, parent: Key, child: Key)
    requires Reachable(dev, parent) && IsChild(dev, parent, child)
    ensures Reachable(dev, child)
  {
    var path :| IsPath(dev, path) && path[|path| - 1] == parent;
    assert IsPath(dev, path + [child]);
    assert (path + [child])[|path|] == child;
  }

  lemma EntityIsReachable(dev: Device)
    ensures Reachable(dev, ENTITY)
  {
    assert IsPath(dev, [ENTITY]) && [ENTITY][|[ENTITY]| - 1] == ENTITY;
  }
}
