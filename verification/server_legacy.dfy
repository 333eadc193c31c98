/** The older server (server/src/server.ts): a five-entry template `Map`, sequential item
    ids, and a rename whose uniqueness check cannot stop the rename. Every other handler
    is the shared one in `Protocol`. */
module LegacyServer {
  import opened Wrappers
  import Random
  import Text
  import Catalog
  import ObjectMaps
  import opened Protocol

  /** The server-local `Item` record; `id` is absent on the templates. */
  datatype Item = Item(
    id: Option<int>,
    itemLabel: string,  // the `label` field (`label` is a Dafny keyword)
    name: string,
    icon: string,
    quantity: int,
    durability: int,
    rarity: Catalog.Rarity,
    position: Random.Point)

  type State = Protocol.State<Item>
  type Transition = Protocol.Transition<Item>

  function ItemId(item: Item): Option<int> {
    item.id
  }

  function Template(key: string, name: string): Item {
    Item(None, key, name, key, 1, 100, Catalog.Common, Random.Point(0, 0))
  }

  /** The constructor argument of `items`, with `'shotgun'` listed twice. */
  const TemplateEntries: seq<(string, Item)> := [
    ("pistol", Template("pistol", "Пистолет")),
    ("rifle", Template("rifle", "Винтовка")),
    ("shotgun", Template("shotgun", "Дробовик")),
    ("sniper", Template("sniper", "Снайперская винтовка")),
    ("shotgun", Template("shotgun", "Дробовик"))
  ]

  /** `items`: the `Map` built from those entries. */
  function Templates(): ObjectMaps.ObjectMap<string, Item> {
    ObjectMaps.FromEntries(TemplateEntries)
  }

  /** The repeated `'shotgun'` collapses: the map holds the first four entries, so four
      distinct labels, in order. */
  lemma TemplatesCollapse()
    ensures ObjectMaps.Valid(Templates())
    ensures Templates().entries == TemplateEntries[..4]
  {
    var e := TemplateEntries;
    var first := e[..4];
    assert ObjectMaps.Valid(ObjectMaps.ObjectMap(first)) by {
      assert first == [e[0], e[1], e[2], e[3]];
    }
    ObjectMaps.FromDistinctEntries(first);
    var m4 := ObjectMaps.FromEntries(first);
    assert e[..|e| - 1] == first;
    assert ObjectMaps.FromEntries(e) == ObjectMaps.Add(m4, e[4].0, e[4].1);
    assert e[4] == m4.entries[2];
    ObjectMaps.AddExisting(m4, 2);
  }

  /** The labels, in iteration order. */
  lemma TemplateLabels()
    ensures ObjectMaps.MapEntries(Templates(), (v: Item, k: string) => k) == ["pistol", "rifle", "shotgun", "sniper"]
  {
    TemplatesCollapse();
  }

  /** The draws `spawnGroundItems` makes for one item, in call order: the template, then x and y. */
  datatype ItemDraw = ItemDraw(pick: Random.Draw, x: Random.Draw, y: Random.Draw)

  /** Loop iteration `i`: a copy of a random template with the position replaced and id `i`. */
  function SpawnOne(mapWidth: int, mapHeight: int, i: int, d: ItemDraw): (item: Item)
    ensures item.id == Some(i)
    ensures 0 <= mapWidth ==> 0 <= item.position.x <= mapWidth
    ensures 0 <= mapHeight ==> 0 <= item.position.y <= mapHeight
  {
    TemplatesCollapse();
    var values := ObjectMaps.MapEntries(Templates(), (v: Item, k: string) => v);
    var template := values[Random.GetRandomInt(0, |values| - 1, d.pick)];
    var position := Random.Point(Random.GetRandomInt(0, mapWidth, d.x), Random.GetRandomInt(0, mapHeight, d.y));
    template.(position := position, id := Some(i))
  }

  /** Each spawned item copies one of the four templates; only its id and position are new. */
  lemma SpawnOneCopiesTemplate(mapWidth: int, mapHeight: int, i: int, d: ItemDraw)
    ensures var item := SpawnOne(mapWidth, mapHeight, i, d);
      exists k :: 0 <= k < |Templates().entries| && item.(id := None, position := Random.Point(0, 0)) == Templates().entries[k].1
  {
    TemplatesCollapse();
    var k := Random.GetRandomInt(0, |Templates().entries| - 1, d.pick);
    assert Templates().entries[k].1.id == None && Templates().entries[k].1.position == Random.Point(0, 0);
  }

  /** The results of `f` over `ds`, each given its place in the loop. */
  function Iterate<D, T>(f: (int, D) -> T, ds: seq<D>): (r: seq<T>)
    ensures |r| == |ds|
    ensures forall j :: 0 <= j < |r| ==> r[j] == f(j, ds[j])
  {
    if ds == [] then []
    else
      var prefix := Iterate(f, ds[..|ds| - 1]);
      assert forall j :: 0 <= j < |ds| - 1 ==> ds[..|ds| - 1][j] == ds[j];
      prefix + [f(|ds| - 1, ds[|ds| - 1])]
  }

  /** The first `|draws|` iterations of the loop: item `j` is iteration `j`'s, so the
      pool's ids are its positions. */
  function SpawnAll(mapWidth: int, mapHeight: int, draws: seq<ItemDraw>): (items: seq<Item>)
    ensures |items| == |draws|
    ensures forall j :: 0 <= j < |items| ==> items[j] == SpawnOne(mapWidth, mapHeight, j, draws[j])
  {
    Iterate((j, d) => SpawnOne(mapWidth, mapHeight, j, d), draws)
  }

  /** `spawnGroundItems(minItems, maxItems, mapWidth, mapHeight)`. */
  function SpawnGroundItems(minItems: int, maxItems: int, mapWidth: int, mapHeight: int, count: Random.Draw, draws: seq<ItemDraw>): (items: seq<Item>)
    requires Random.GetRandomInt(minItems, maxItems, count) <= |draws|
    ensures 0 <= minItems <= maxItems ==> minItems <= |items| <= maxItems
    ensures forall j :: 0 <= j < |items| ==> items[j].id == Some(j)
  {
    var n := Random.GetRandomInt(minItems, maxItems, count);
    if n <= 0 then [] else SpawnAll(mapWidth, mapHeight, draws[..n])
  }

  /** The pool the server starts with: `spawnGroundItems(24, 64, 4000, 4000)`. Its ids are
      0..n-1 in order, hence pairwise distinct. */
  function InitialState(count: Random.Draw, draws: seq<ItemDraw>): (s: State)
    requires Random.GetRandomInt(24, 64, count) <= |draws|
    ensures s.players == map[]
    ensures 24 <= |s.itemsOnGround| <= 64
    ensures forall j :: 0 <= j < |s.itemsOnGround| ==> s.itemsOnGround[j].id == Some(j)
    ensures IdsDistinct(s.itemsOnGround, ItemId)
  {
    var items := SpawnGroundItems(24, 64, 4000, 4000, count, draws);
    CountingIdsDistinct(items);
    State(map[], items)
  }

  /** Ids that count the positions up from 0 are pairwise distinct. */
  lemma CountingIdsDistinct(items: seq<Item>)
    requires forall j :: 0 <= j < |items| ==> items[j].id == Some(j)
    ensures IdsDistinct(items, ItemId)
  {
    forall i, j | 0 <= i < j < |items| ensures ItemId(items[i]) != ItemId(items[j]) {
      assert items[i].id == Some(i) && items[j].id == Some(j);
    }
  }

  /** On the pool the server starts with, an item id names one item: once a pickup of an
      id succeeds, picking up that id again, by anyone, changes nothing and announces
      nothing, and the ids left stay distinct. */
  lemma InitialPickupOnce(world: State, count: Random.Draw, draws: seq<ItemDraw>, sender: string, sender': string, itemId: int)
    requires Random.GetRandomInt(24, 64, count) <= |draws|
    ensures var s := world.(itemsOnGround := InitialState(count, draws).itemsOnGround);
      var first := Pickup(s, sender, itemId, ItemId);
      && IdsDistinct(first.state.itemsOnGround, ItemId)
      && (first.out != [] ==> Pickup(first.state, sender', itemId, ItemId) == Transition(first.state, []))
  {
    var s := world.(itemsOnGround := InitialState(count, draws).itemsOnGround);
    PickupTwice(s, sender, sender', itemId, ItemId);
  }

  const EmptyNameMessage := "Имя не может быть пустым"
  const NameTakenMessage := "Имя занято"
  const NotFoundMessage := "Игрок не найден"

  /** The sessions whose name is `name`. */
  function Holders(players: map<string, Player>, name: string): set<string> {
    set id | id in players && players[id].name == name
  }

  /** `playerRename` as written: the `return` inside the `forEach` callback leaves only
      the callback, so every session holding the name gets the callback a failure reply
      and the rename then goes ahead regardless. */
  function Rename(s: State, sender: string, newName: string): (r: Transition)
    ensures Text.IsBlank(newName) ==>
      r == Transition(s, [Outbound(Callback, RenameReply(false, Some(EmptyNameMessage)))])
    ensures !Text.IsBlank(newName) ==>
      && |r.out| == |Holders(s.players, newName)| + 1
      && (forall j :: 0 <= j < |r.out| - 1 ==> r.out[j] == Outbound(Callback, RenameReply(false, Some(NameTakenMessage))))
      && (sender !in s.players ==>
            r.state == s && r.out[|r.out| - 1] == Outbound(Callback, RenameReply(false, Some(NotFoundMessage))))
      && (sender in s.players ==>
            && r.state.players == s.players[sender := s.players[sender].(name := newName)]
            && r.state.itemsOnGround == s.itemsOnGround
            && r.out[|r.out| - 1] == Outbound(Callback, RenameReply(true, None)))
  {
    if Text.IsBlank(newName) then
      Transition(s, [Outbound(Callback, RenameReply(false, Some(EmptyNameMessage)))])
    else
      var taken := seq(|Holders(s.players, newName)|, _ => Outbound(Callback, RenameReply(false, Some(NameTakenMessage))));
      if sender !in s.players then
        Transition(s, taken + [Outbound(Callback, RenameReply(false, Some(NotFoundMessage)))])
      else
        Transition(s.(players := s.players[sender := s.players[sender].(name := newName)]),
          taken + [Outbound(Callback, RenameReply(true, None))])
  }

  /** The rename breaks name uniqueness: with "Bob" held by one session, a second session
      renaming to "Bob" is told the name is taken and then told it succeeded, and both
      sessions end up named "Bob". */
  lemma RenameDuplicateAccepted()
    ensures var bob := Player("a", "Bob", 0.0, 0.0, None, None, 0, 0);
      var other := Player("b", "Игрок b", 0.0, 0.0, None, None, 0, 0);
      var s: State := State(map["a" := bob, "b" := other], []);
      var r := Rename(s, "b", "Bob");
      && NamesDistinct(s.players)
      && !NamesDistinct(r.state.players)
      && r.out == [Outbound(Callback, RenameReply(false, Some(NameTakenMessage))), Outbound(Callback, RenameReply(true, None))]
  {
    var bob := Player("a", "Bob", 0.0, 0.0, None, None, 0, 0);
    var other := Player("b", "Игрок b", 0.0, 0.0, None, None, 0, 0);
    var s: State := State(map["a" := bob, "b" := other], []);
    assert "Bob" != "Игрок b";
    assert Holders(s.players, "Bob") == {"a"};
    var r := Rename(s, "b", "Bob");
    assert r.state.players["a"].name == r.state.players["b"].name;
    assert !Text.IsBlank("Bob") by { assert !Text.IsJsWhitespace("Bob"[0]); }
  }

  /** Dispatch one event from socket `sender` to its handler. */
  function Step(s: State, sender: string, e: Event): (r: Transition)
    ensures e.OnConnect? ==> r == Connect(s, sender, e.spawn)
    ensures !e.OnConnect? ==> r.state.players.Keys <= s.players.Keys
  {
    match e
    case OnConnect(spawn) => Connect(s, sender, spawn)
    case OnMovement(data) => Move(s, sender, data)
    case OnShoot(shot) => Shoot(s, sender, shot)
    case OnReload => Reload(s, sender)
    case OnReloadComplete => ReloadComplete(s, sender)
    case OnDead(killerId, respawn) => Dead(s, sender, killerId, respawn)
    case OnRename(newName) => Rename(s, sender, newName)
    case OnPickupItem(itemId) => Pickup(s, sender, itemId, ItemId)
    case OnDisconnect => Disconnect(s, sender)
  }
}
