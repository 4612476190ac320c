/** The shared-volume broker: a catalog of inode capabilities. Its operations suspend while
    they wait for the machine or the mount; each function is the code between two waits. */
module BrokerState {
  import opened Bytes
  import opened Wrappers
  import opened SharedNames
  import opened SharedTree

  const MAXIMUM_VERSION := 8192
  const MAXIMUM_SIZE := 0x7fff_ffff_ffff_ffff
  const MAXIMUM_READ := 1048576

  /** What the machine reports about a file; `offered` is its last path component as a name
      for a Mac. */
  datatype Info = Info(source: Source, kind: Kind, size: nat, version: Data, offered: Offered)

  /** `pending` has the shares not mounted yet of each root, and tokens are numbered so that a
      new one never equals an old one. */
  datatype Broker = Broker(
    nodes: Nodes,
    nextID: nat,
    pending: map<nat, map<nat, Purpose>>,
    generation: nat,
    purposeGenerations: map<Purpose, nat>,
    stopped: bool,
    tokens: nat)

  const NewBroker := Broker(map[], FIRST, map[], 0, map[], false, 1)

  datatype Failure = Stale | NotSupported | Invalid | Interrupted | NotDirectory | NoAccess

  /** An operation that waits, with what it looked at before. */
  datatype Op =
    | Measuring(files: seq<Source>, infos: seq<Info>, access: nat, purpose: Purpose, token: nat, purposeToken: Option<nat>)
    | Mounting(ids: seq<nat>, publication: nat, purpose: Purpose, token: nat, purposeToken: Option<nat>)
    | Refreshing(id: nat, node: Node, token: nat)
    | Listing(id: nat, node: Node, token: nat)
    | Reading(id: nat, node: Node, token: nat, version: Data, length: nat)

  // ---- Checks ----

  predicate ValidName(name: Data) {
    name != [] && name != [46] && name != [46, 46] && 47 !in name && 0 !in name && |name| <= MAXIMUM_NAME
  }

  predicate Validate(info: Info, source: Source) {
    && info.source == source && source != []
    && !info.kind.Special? && ValidName(source[|source| - 1])
    && info.version != [] && |info.version| <= MAXIMUM_VERSION && info.size <= MAXIMUM_SIZE
  }

  function ItemOf(info: Info, parent: nat, name: Data): Item {
    Item(parent, name, if info.kind.Directory? then Directory else File, info.size, info.version)
  }

  predicate IsVisible(b: Broker, n: Node) {
    (n.published && n.purposes != {}) || (n.selection in b.pending && b.pending[n.selection] != map[])
  }

  function PurposeToken(b: Broker, p: Purpose): Option<nat> {
    if p in b.purposeGenerations then Some(b.purposeGenerations[p]) else None
  }

  predicate Current(b: Broker, token: nat, p: Purpose, purposeToken: Option<nat>) {
    b.generation == token && PurposeToken(b, p) == purposeToken && !b.stopped
  }

  // ---- The catalog ----

  function UsedNames(nodes: Nodes, parent: nat): set<Data> {
    set id | id in nodes && nodes[id].item.parent == parent :: nodes[id].item.name
  }

  predicate IsFor(nodes: Nodes, id: nat, parent: nat, access: nat, source: Source) {
    id in nodes && nodes[id].item.parent == parent && nodes[id].access == access && nodes[id].source == source
  }

  /** The node that stands for a source, if there is one. */
  ghost function Find(nodes: Nodes, parent: nat, access: nat, source: Source): (r: Option<nat>)
    ensures match r
            case Some(id) => IsFor(nodes, id, parent, access, source)
            case None => forall id: nat :: !IsFor(nodes, id, parent, access, source)
  {
    if exists id: nat :: IsFor(nodes, id, parent, access, source)
    then var id: nat :| IsFor(nodes, id, parent, access, source); Some(id)
    else None
  }

  function WithItem(nodes: Nodes, id: nat, item: Item): Nodes
    requires id in nodes
  {
    nodes[id := nodes[id].(item := item)]
  }

  /** The root of a source selected before, with what is known of it now. */
  function SelectAgain(b: Broker, id: nat, info: Info): Broker
    requires id in b.nodes
  {
    var existing := b.nodes[id].item;
    var changed := existing.kind.Directory? && existing.version != info.version;
    var nodes := if changed then WithoutChildren(b.nodes, id) else b.nodes;
    b.(nodes := WithItem(nodes, id, ItemOf(info, ROOT, existing.name)))
  }

  function SelectNew(b: Broker, info: Info, access: nat): Broker {
    var name := UniqueName(UsedNames(b.nodes, ROOT), info.offered);
    var node := Node(ItemOf(info, ROOT, name), info.source, access, b.nextID, false, {});
    b.(nodes := b.nodes[b.nextID := node], nextID := b.nextID + 1)
  }

  /** Catalogs one source selected by the user; its node is kept if it has one already. */
  ghost function Select(b: Broker, info: Info, access: nat): (Broker, nat) {
    match Find(b.nodes, ROOT, access, info.source)
    case Some(id) => (SelectAgain(b, id, info), id)
    case None => (SelectNew(b, info, access), b.nextID)
  }

  ghost function SelectAll(b: Broker, infos: seq<Info>, access: nat): (Broker, seq<nat>) {
    if infos == [] then (b, [])
    else
      var (before, ids) := SelectAll(b, infos[..|infos| - 1], access);
      var (after, id) := Select(before, infos[|infos| - 1], access);
      (after, ids + [id])
  }

  function Shares(b: Broker, id: nat): map<nat, Purpose> { if id in b.pending then b.pending[id] else map[] }

  function Pend(b: Broker, ids: seq<nat>, publication: nat, p: Purpose): Broker {
    if ids == [] then b
    else
      var before, id := Pend(b, ids[..|ids| - 1], publication, p), ids[|ids| - 1];
      before.(pending := before.pending[id := Shares(before, id)[publication := p]])
  }

  /** The selected files are in the catalog; the share is pending until the volume is mounted. */
  ghost function Catalog(b: Broker, op: Op): (Broker, Op)
    requires op.Measuring?
  {
    var (selected, ids) := SelectAll(b, op.infos, op.access);
    (Pend(selected, ids, b.tokens, op.purpose).(tokens := b.tokens + 1),
     Mounting(ids, b.tokens, op.purpose, op.token, op.purposeToken))
  }

  // ---- Publishing ----

  /** Answers list their items by identifier; `TheRoot` stands for the volume itself. */
  datatype Outcome = Waits(op: Op) | Fails(failure: Failure) | TheRoot | Answers(items: map<nat, Item>) | Contents(bytes: Data)

  ghost function BeginPublish(b: Broker, files: seq<Source>, access: nat, p: Purpose): (Broker, Outcome) {
    if b.stopped then (b, Fails(NotSupported))
    else
      var op := Measuring(files, [], access, p, b.generation, PurposeToken(b, p));
      if files == [] then var (c, mounting) := Catalog(b, op); (c, Waits(mounting)) else (b, Waits(op))
  }

  /** The metadata of the next file is there. */
  ghost function ResumeMeasure(b: Broker, op: Op, info: Info): (Broker, Outcome)
    requires op.Measuring? && |op.infos| < |op.files|
  {
    if !Current(b, op.token, op.purpose, op.purposeToken) then (b, Fails(Interrupted))
    else if !Validate(info, op.files[|op.infos|]) then (b, Fails(Invalid))
    else
      var more := op.(infos := op.infos + [info]);
      if |more.infos| < |more.files| then (b, Waits(more)) else var (c, mounting) := Catalog(b, more); (c, Waits(mounting))
  }

  function Grant(nodes: Nodes, ids: seq<nat>, p: Purpose): Nodes {
    map x | x in nodes :: if x in ids then nodes[x].(published := true, purposes := nodes[x].purposes + {p}) else nodes[x]
  }

  function WithShares(b: Broker, id: nat, shares: map<nat, Purpose>): Broker {
    b.(pending := if shares == map[] then b.pending - {id} else b.pending[id := shares])
  }

  /** Drops a root that nothing holds any more. */
  function Settle(b: Broker, id: nat): Broker {
    if id !in b.pending && id in b.nodes && b.nodes[id].purposes == {} then b.(nodes := WithoutTree(b.nodes, id)) else b
  }

  /** Takes one share off a root. */
  function Release(b: Broker, id: nat, publication: nat): Broker {
    Settle(if id in b.pending then WithShares(b, id, b.pending[id] - {publication}) else b, id)
  }

  function ReleaseAll(b: Broker, ids: seq<nat>, publication: nat): Broker {
    if ids == [] then b else Release(ReleaseAll(b, ids[..|ids| - 1], publication), ids[|ids| - 1], publication)
  }

  /** The mount succeeded or not; the pending share ends either way. */
  function ResumeMount(b: Broker, op: Op, mounted: bool): (Broker, Outcome)
    requires op.Mounting?
  {
    var ended := ReleaseAll(b, op.ids, op.publication);
    if !mounted || !Current(b, op.token, op.purpose, op.purposeToken) then (ended, Fails(Interrupted))
    else if exists id <- op.ids :: id !in b.nodes then (ended, Fails(Stale))
    else
      (ReleaseAll(b.(nodes := Grant(b.nodes, op.ids, op.purpose)), op.ids, op.publication),
       Answers(map id | id in b.nodes && id in op.ids :: b.nodes[id].item))
  }

  // ---- Revoking ----

  function WithoutPurpose(shares: map<nat, Purpose>, p: Purpose): map<nat, Purpose> {
    map k | k in shares && shares[k] != p :: shares[k]
  }

  predicate Holds(b: Broker, id: nat, p: Purpose)
    requires id in b.nodes
  {
    p in b.nodes[id].purposes || p in Shares(b, id).Values
  }

  /** The roots that only this purpose keeps. */
  predicate Loses(b: Broker, id: nat, p: Purpose) {
    && id in b.nodes && b.nodes[id].item.parent == ROOT && Holds(b, id, p)
    && b.nodes[id].purposes <= {p} && WithoutPurpose(Shares(b, id), p) == map[]
  }

  function RootsWith(b: Broker, p: Purpose): set<nat> {
    set id | id in b.nodes && b.nodes[id].item.parent == ROOT && Holds(b, id, p)
  }

  function Revoke(b: Broker, p: Purpose): Broker {
    b.(purposeGenerations := b.purposeGenerations[p := b.tokens],
       tokens := b.tokens + 1,
       nodes := map x | x in b.nodes && !Loses(b, b.nodes[x].selection, p)
                  :: if x in RootsWith(b, p) then b.nodes[x].(purposes := b.nodes[x].purposes - {p}) else b.nodes[x],
       pending := map id | id in b.pending && WithoutPurpose(b.pending[id], p) != map[] :: WithoutPurpose(b.pending[id], p))
  }

  function RevokeAll(b: Broker): Broker {
    b.(generation := b.tokens, tokens := b.tokens + 1, nodes := map[], pending := map[])
  }

  function Stop(b: Broker): Broker { if b.stopped then b else RevokeAll(b.(stopped := true)) }

  // ---- Looking at the catalog ----

  function BeginRefresh(b: Broker, id: nat): Outcome {
    if id == ROOT then TheRoot
    else if id !in b.nodes then Fails(Stale)
    else Waits(Refreshing(id, b.nodes[id], b.generation))
  }

  /** The node with what is known of it now; a directory that changed is listed afresh. */
  function Refreshed(nodes: Nodes, id: nat, node: Node, info: Info): Nodes
    requires id in nodes
  {
    var changed := node.item.kind.Directory? && (node.item.version != info.version || !info.kind.Directory?);
    WithItem(if changed then WithoutChildren(nodes, id) else nodes, id, ItemOf(info, node.item.parent, node.item.name))
  }

  function ResumeRefresh(b: Broker, op: Op, info: Info): (Broker, Outcome)
    requires op.Refreshing?
  {
    if b.generation != op.token || op.id !in b.nodes || b.stopped then (b, Fails(Stale))
    else if !Validate(info, op.node.source) then (b, Fails(Invalid))
    else
      (b.(nodes := Refreshed(b.nodes, op.id, op.node, info)),
       Answers(map[op.id := ItemOf(info, op.node.item.parent, op.node.item.name)]))
  }

  function BeginList(b: Broker, id: nat): Outcome {
    if id == ROOT then Answers(map r | r in b.nodes && b.nodes[r].item.parent == ROOT && IsVisible(b, b.nodes[r]) :: b.nodes[r].item)
    else if id !in b.nodes || !b.nodes[id].item.kind.Directory? then Fails(NotDirectory)
    else Waits(Listing(id, b.nodes[id], b.generation))
  }

  function Listed(infos: seq<Info>): seq<Info> {
    if infos == [] then []
    else Listed(infos[..|infos| - 1]) + if infos[|infos| - 1].kind.Special? then [] else [infos[|infos| - 1]]
  }

  /** The first fault found in what a directory is said to contain: entries lie in it and
      have different names. */
  function Fault(source: Source, infos: seq<Info>): Option<Failure> {
    if infos == [] then None
    else
      var front, last := infos[..|infos| - 1], infos[|infos| - 1];
      if Fault(source, front).Some? then Fault(source, front)
      else if !Validate(last, last.source) then Some(Invalid)
      else if last.source[..|last.source| - 1] != source || exists e <- front :: e.source == last.source then Some(NoAccess)
      else None
  }

  function Child(id: nat, node: Node, info: Info, name: Data): Node {
    Node(ItemOf(info, id, name), info.source, node.access, node.selection, false, {})
  }

  function AdoptAgain(b: Broker, id: nat, node: Node, info: Info, child: nat): Broker
    requires child in b.nodes
  {
    var existing := b.nodes[child].item;
    var changed := existing.kind.Directory? && (existing.version != info.version || !info.kind.Directory?);
    var nodes := if changed then WithoutChildren(b.nodes, child) else b.nodes;
    b.(nodes := nodes[child := Child(id, node, info, existing.name)])
  }

  function AdoptNew(b: Broker, id: nat, node: Node, info: Info): Broker {
    var name := UniqueName(UsedNames(b.nodes, id), info.offered);
    b.(nodes := b.nodes[b.nextID := Child(id, node, info, name)], nextID := b.nextID + 1)
  }

  /** Takes in one entry of a directory. */
  ghost function Adopt(b: Broker, id: nat, node: Node, info: Info): (Broker, nat) {
    match Find(b.nodes, id, node.access, info.source)
    case Some(child) => (AdoptAgain(b, id, node, info, child), child)
    case None => (AdoptNew(b, id, node, info), b.nextID)
  }

  ghost function AdoptAll(b: Broker, id: nat, node: Node, infos: seq<Info>): (Broker, seq<nat>) {
    if infos == [] then (b, [])
    else
      var (before, children) := AdoptAll(b, id, node, infos[..|infos| - 1]);
      var (after, child) := Adopt(before, id, node, infos[|infos| - 1]);
      (after, children + [child])
  }

  /** The children that are no longer there go with what hangs below them. */
  function Missing(nodes: Nodes, id: nat, present: seq<nat>): set<nat> {
    set x | x in nodes && nodes[x].item.parent == id && x !in present
  }

  ghost function ResumeList(b: Broker, op: Op, infos: seq<Info>): (Broker, Outcome)
    requires op.Listing?
  {
    if b.generation != op.token || op.id !in b.nodes || b.stopped then (b, Fails(Stale))
    else if Fault(op.node.source, Listed(infos)).Some? then (b, Fails(Fault(op.node.source, Listed(infos)).value))
    else
      var (c, children) := AdoptAll(b, op.id, op.node, Listed(infos));
      var d := c.(nodes := Pruning(c.nodes, Missing(c.nodes, op.id, children)));
      (d, Answers(map x | x in d.nodes && d.nodes[x].item.parent == op.id :: d.nodes[x].item))
  }

  function BeginRead(b: Broker, id: nat, offset: nat, length: nat, version: Data): Outcome {
    if length > MAXIMUM_READ || version == [] || |version| > MAXIMUM_VERSION then Fails(Invalid)
    else if id !in b.nodes || !b.nodes[id].item.kind.File? then Fails(Stale)
    else
      var node := b.nodes[id];
      if node.selection !in b.nodes || !IsVisible(b, b.nodes[node.selection]) then Fails(NoAccess)
      else if version != node.item.version then Fails(Stale)
      else if offset + length > MAXIMUM_SIZE then Fails(Invalid)
      else Waits(Reading(id, node, b.generation, version, length))
  }

  function ResumeRead(b: Broker, op: Op, bytes: Data): Outcome
    requires op.Reading?
  {
    if b.generation != op.token || op.id !in b.nodes || b.nodes[op.id].item.version != op.version then Fails(Stale)
    else if b.nodes[op.id].source != op.node.source || b.nodes[op.id].access != op.node.access then Fails(Stale)
    else if |bytes| > op.length || b.stopped then Fails(Stale)
    else Contents(bytes)
  }
}
