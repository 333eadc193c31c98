/** The current server (server/src/server-elysia.ts): catalog items on the ground,
    and a rename that stops at the first session already holding the name. */
module ElysiaServer {
  import opened Wrappers
  import Random
  import Text
  import Catalog
  import opened Protocol

  type State = Protocol.State<Catalog.Item>
  type Transition = Protocol.Transition<Catalog.Item>

  function ItemId(item: Catalog.Item): Option<int> {
    Some(item.id)
  }

  /** The draws `spawnGroundItems` makes for one item, in call order: x, y, rotation,
      the catalog key, then `Date.now()` and the id jitter inside `createItemInstance`. */
  datatype ItemDraw = ItemDraw(x: Random.Draw, y: Random.Draw, rotation: Random.Draw, key: Random.Draw, now: int, jitter: Random.Draw)

  /** One loop iteration of `spawnGroundItems`: null when the drawn key has no template. */
  function SpawnOne(mapWidth: int, mapHeight: int, d: ItemDraw): (r: Option<Catalog.Item>)
    ensures r.Some?
    ensures 0 <= mapWidth ==> 0.0 <= r.value.position.x <= mapWidth as real
    ensures 0 <= mapHeight ==> 0.0 <= r.value.position.y <= mapHeight as real
    ensures r.value.position.rotation.Some? && 0.0 <= r.value.position.rotation.value <= 360.0
  {
    var position := Catalog.Position(
      Random.GetRandomInt(0, mapWidth, d.x) as real,
      Random.GetRandomInt(0, mapHeight, d.y) as real,
      Some(Random.GetRandomInt(0, 360, d.rotation) as real));
    var i := Random.GetRandomInt(0, |Catalog.Entries| - 1, d.key);
    KeyAtFindsTemplate(i);
    Catalog.CreateItemInstance(KeyAt(Catalog.Entries, i), position, d.now, d.jitter)
  }

  /** The key of entry `i` of `entries` (`Object.keys(ITEMS)[i]`). */
  function KeyAt(entries: seq<(string, Catalog.Item)>, i: nat): string
    requires i < |entries|
  {
    if i == 0 then entries[0].0 else KeyAt(entries[1..], i - 1)
  }

  lemma {:induction false} KeyAtIndex(entries: seq<(string, Catalog.Item)>, i: nat)
    requires i < |entries|
    ensures KeyAt(entries, i) == entries[i].0
  {
    if i > 0 {
      assert entries[1..][i - 1] == entries[i];
      KeyAtIndex(entries[1..], i - 1);
    }
  }

  /** Every key of the catalog finds its own template. */
  lemma KeyAtFindsTemplate(i: int)
    requires 0 <= i < |Catalog.Entries|
    ensures Catalog.Lookup(Catalog.Entries, KeyAt(Catalog.Entries, i)) == Some(Catalog.Entries[i].1)
  {
    Catalog.CatalogKeysDistinct();
    LookupDistinct(Catalog.Entries, i);
    KeyAtIndex(Catalog.Entries, i);
  }

  /** Each spawned item is a copy of a catalog template, with only its id and position new. */
  lemma SpawnOneCopiesTemplate(mapWidth: int, mapHeight: int, d: ItemDraw)
    ensures var r := SpawnOne(mapWidth, mapHeight, d).value;
      exists i :: 0 <= i < |Catalog.Entries| && r.(id := Catalog.Entries[i].1.id, position := Catalog.Entries[i].1.position) == Catalog.Entries[i].1
  {
    var i := Random.GetRandomInt(0, |Catalog.Entries| - 1, d.key);
    KeyAtFindsTemplate(i);
  }

  /** With distinct keys, looking up the key of entry `i` gives entry `i`'s template. */
  lemma {:induction false} LookupDistinct(entries: seq<(string, Catalog.Item)>, i: int)
    requires 0 <= i < |entries|
    requires forall a, b :: 0 <= a < b < |entries| ==> entries[a].0 != entries[b].0
    ensures Catalog.Lookup(entries, entries[i].0) == Some(entries[i].1)
  {
    if i > 0 {
      assert entries[0].0 != entries[i].0;
      assert entries[1..][i - 1] == entries[i];
      LookupDistinct(entries[1..], i - 1);
    }
  }

  /** The non-null results of `f` over `ds`, in order: the loop's `if (item) items.push(item)`. */
  function Collect<D, T>(f: D -> Option<T>, ds: seq<D>): (r: seq<T>)
    ensures |r| <= |ds|
    ensures (forall j :: 0 <= j < |ds| ==> f(ds[j]).Some?) ==>
      |r| == |ds| && forall j :: 0 <= j < |r| ==> Some(r[j]) == f(ds[j])
  {
    if ds == [] then []
    else
      var prefix := Collect(f, ds[..|ds| - 1]);
      assert forall j :: 0 <= j < |ds| - 1 ==> ds[..|ds| - 1][j] == ds[j];
      match f(ds[|ds| - 1])
      case None => prefix
      case Some(x) => prefix + [x]
  }

  /** The items of the loop iterations `draws`, skipping the null ones: since no
      iteration is null, item `j` is the item of iteration `j`. */
  function SpawnAll(mapWidth: int, mapHeight: int, draws: seq<ItemDraw>): (items: seq<Catalog.Item>)
    ensures |items| == |draws|
    ensures forall j :: 0 <= j < |items| ==> Some(items[j]) == SpawnOne(mapWidth, mapHeight, draws[j])
  {
    Collect(d => SpawnOne(mapWidth, mapHeight, d), draws)
  }

  /** `spawnGroundItems(minItems, maxItems, mapWidth, mapHeight)`: `count` draws the
      number of items; `draws` holds at least that many iterations' draws. */
  function SpawnGroundItems(minItems: int, maxItems: int, mapWidth: int, mapHeight: int, count: Random.Draw, draws: seq<ItemDraw>): (items: seq<Catalog.Item>)
    requires Random.GetRandomInt(minItems, maxItems, count) <= |draws|
    ensures 0 <= minItems <= maxItems ==> minItems <= |items| <= maxItems
    ensures forall j :: 0 <= j < |items| ==>
      && (0 <= mapWidth ==> 0.0 <= items[j].position.x <= mapWidth as real)
      && (0 <= mapHeight ==> 0.0 <= items[j].position.y <= mapHeight as real)
      && items[j].position.rotation.Some? && 0.0 <= items[j].position.rotation.value <= 360.0
  {
    var n := Random.GetRandomInt(minItems, maxItems, count);
    if n <= 0 then [] else SpawnAll(mapWidth, mapHeight, draws[..n])
  }

  /** The pool the server starts with: `spawnGroundItems(64, 128, 4000, 4000)`. */
  function InitialState(count: Random.Draw, draws: seq<ItemDraw>): (s: State)
    requires Random.GetRandomInt(64, 128, count) <= |draws|
    ensures s.players == map[]
    ensures 64 <= |s.itemsOnGround| <= 128
    ensures forall j :: 0 <= j < |s.itemsOnGround| ==>
      && 0.0 <= s.itemsOnGround[j].position.x <= 4000.0
      && 0.0 <= s.itemsOnGround[j].position.y <= 4000.0
  {
    State(map[], SpawnGroundItems(64, 128, 4000, 4000, count, draws))
  }

  /** Within one millisecond only the jitter draw separates ids: two iterations with the
      same `Date.now()` and the same jitter give their items the same id, whatever template
      and position they draw. */
  lemma SameMillisecondSameId(mapWidth: int, mapHeight: int, d1: ItemDraw, d2: ItemDraw)
    requires d1.now == d2.now && d1.jitter == d2.jitter
    ensures SpawnOne(mapWidth, mapHeight, d1).value.id == SpawnOne(mapWidth, mapHeight, d2).value.id
    ensures SpawnOne(mapWidth, mapHeight, d1).value.id == d1.now + Random.ScaledIndex(d1.jitter, 1000)
  {
    KeyAtFindsTemplate(Random.GetRandomInt(0, |Catalog.Entries| - 1, d1.key));
    KeyAtFindsTemplate(Random.GetRandomInt(0, |Catalog.Entries| - 1, d2.key));
  }

  /** Counterexample to ids identifying ground items: a pool of two items spawned in the
      same millisecond with the same jitter. Picking up the first item's id succeeds, and
      picking up the same id again succeeds too, taking the other item and announcing the
      pickup a second time. */
  lemma DuplicateIdPickedTwice(world: State, sender: string, mapWidth: int, mapHeight: int, d1: ItemDraw, d2: ItemDraw)
    requires sender in world.players
    requires d1.now == d2.now && d1.jitter == d2.jitter
    ensures var s := world.(itemsOnGround := SpawnAll(mapWidth, mapHeight, [d1, d2]));
      && |s.itemsOnGround| == 2 && s.itemsOnGround[0].id == s.itemsOnGround[1].id
      && var id := s.itemsOnGround[0].id;
         var first := Pickup(s, sender, id, ItemId);
         && first.out == [Outbound(Everyone, PlayerPickupItem(id))]
         && Pickup(first.state, sender, id, ItemId).out == [Outbound(Everyone, PlayerPickupItem(id))]
         && Pickup(first.state, sender, id, ItemId).state.itemsOnGround == []
  {
    SameMillisecondSameId(mapWidth, mapHeight, d1, d2);
    var s := world.(itemsOnGround := SpawnAll(mapWidth, mapHeight, [d1, d2]));
    var items := s.itemsOnGround;
    var id := items[0].id;
    assert FirstIndex(items, id, ItemId) == Some(0);
    var first := Pickup(s, sender, id, ItemId);
    assert first.state.itemsOnGround == [items[1]];
    assert FirstIndex([items[1]], id, ItemId) == Some(0);
  }

  const EmptyNameMessage := "Имя не может быть пустым"
  const NameTakenMessage := "Имя занято"
  const NotFoundMessage := "Игрок не найден"

  /** `playerRename`: refused for a blank name, for a name some session already holds
      (the sender's own included) and for a sender without a session; otherwise only
      the sender's name changes. The reply goes to the callback alone. */
  function Rename(s: State, sender: string, newName: string): (r: Transition)
    ensures |r.out| == 1 && r.out[0].target == Callback && r.out[0].message.RenameReply?
    ensures r.out[0].message.success <==>
      !Text.IsBlank(newName) && !NameTaken(s.players, newName) && sender in s.players
    ensures !r.out[0].message.success ==> r.state == s
    ensures r.out[0].message.success ==>
      && r.state.players.Keys == s.players.Keys
      && OthersUnchanged(s.players, r.state.players, sender)
      && r.state.players[sender] == s.players[sender].(name := newName)
      && r.state.itemsOnGround == s.itemsOnGround
    ensures Text.IsBlank(newName) ==> r.out[0].message.message == Some(EmptyNameMessage)
    ensures !Text.IsBlank(newName) && NameTaken(s.players, newName) ==> r.out[0].message.message == Some(NameTakenMessage)
  {
    if Text.IsBlank(newName) then
      Transition(s, [Outbound(Callback, RenameReply(false, Some(EmptyNameMessage)))])
    else if NameTaken(s.players, newName) then
      Transition(s, [Outbound(Callback, RenameReply(false, Some(NameTakenMessage)))])
    else if sender !in s.players then
      Transition(s, [Outbound(Callback, RenameReply(false, Some(NotFoundMessage)))])
    else
      Transition(s.(players := s.players[sender := s.players[sender].(name := newName)]),
        [Outbound(Callback, RenameReply(true, None))])
  }

  /** A rename never makes two sessions share a name. */
  lemma RenameKeepsNamesDistinct(s: State, sender: string, newName: string)
    requires NamesDistinct(s.players)
    ensures NamesDistinct(Rename(s, sender, newName).state.players)
  {
  }

  /** Dispatch one event from socket `sender` to its handler. */
  function Step(s: State, sender: string, e: Event): (r: Transition)
    ensures e.OnConnect? ==> r == Connect(s, sender, e.spawn)
    ensures !e.OnConnect? ==> r.state.players.Keys <= s.players.Keys
  {
    match e
    case OnConnect(spawn) => Connect(s, sender, spawn)
    case OnMovement(data) => Move(s, sender, data)
    case OnShoot(shot) => Shoot(s, sender, shot)
    case OnReload => Reload(s, sender)
    case OnReloadComplete => ReloadComplete(s, sender)
    case OnDead(killerId, respawn) => Dead(s, sender, killerId, respawn)
    case OnRename(newName) => Rename(s, sender, newName)
    case OnPickupItem(itemId) => Pickup(s, sender, itemId, ItemId)
    case OnDisconnect => Disconnect(s, sender)
  }

  /** Process a trace of (sender, event) pairs in arrival order. */
  function Run(s: State, trace: seq<(string, Event)>): State
    decreases |trace|
  {
    if trace == [] then s
    else Run(Step(s, trace[0].0, trace[0].1).state, trace[1..])
  }

  /** Every event keeps names distinct, except a connection whose placeholder name
      another session has already taken. */
  lemma {:induction false} StepKeepsNamesDistinct(s: State, sender: string, e: Event)
    requires NamesDistinct(s.players)
    requires e.OnConnect? ==> forall id :: id in s.players && id != sender ==> s.players[id].name != DefaultName(sender)
    ensures NamesDistinct(Step(s, sender, e).state.players)
  {
    match e
    case OnRename(newName) => RenameKeepsNamesDistinct(s, sender, newName);
    case _ =>
  }

  /** Without new connections, names that start distinct stay distinct over any trace. */
  lemma {:induction false} RunKeepsNamesDistinct(s: State, trace: seq<(string, Event)>)
    requires NamesDistinct(s.players)
    requires forall i :: 0 <= i < |trace| ==> !trace[i].1.OnConnect?
    ensures NamesDistinct(Run(s, trace).players)
    decreases |trace|
  {
    if trace != [] {
      StepKeepsNamesDistinct(s, trace[0].0, trace[0].1);
      RunKeepsNamesDistinct(Step(s, trace[0].0, trace[0].1).state, trace[1..]);
    }
  }

  /** The pool only shrinks: every event leaves a sub-multiset of the items it found. */
  lemma {:induction false} RunOnlyShrinksPool(s: State, trace: seq<(string, Event)>)
    ensures multiset(Run(s, trace).itemsOnGround) <= multiset(s.itemsOnGround)
    decreases |trace|
  {
    if trace != [] {
      var (sender, e) := trace[0];
      if e.OnPickupItem? && Step(s, sender, e).out != [] {
        PickupRemovesExactlyOne(s, sender, e.itemId, ItemId, e.itemId);
      }
      RunOnlyShrinksPool(Step(s, sender, e).state, trace[1..]);
    }
  }

  /** Once a socket has disconnected, no later event from it can bring its session back
      except a new connection under the same id. */
  lemma {:induction false} DisconnectedStaysGone(s: State, sender: string, trace: seq<(string, Event)>)
    requires forall i :: 0 <= i < |trace| ==> !trace[i].1.OnConnect?
    ensures sender !in Run(Disconnect(s, sender).state, trace).players
  {
    RunNeverAddsSessions(Disconnect(s, sender).state, trace);
  }

  lemma {:induction false} RunNeverAddsSessions(s: State, trace: seq<(string, Event)>)
    requires forall i :: 0 <= i < |trace| ==> !trace[i].1.OnConnect?
    ensures Run(s, trace).players.Keys <= s.players.Keys
    decreases |trace|
  {
    if trace != [] {
      RunNeverAddsSessions(Step(s, trace[0].0, trace[0].1).state, trace[1..]);
    }
  }
}
