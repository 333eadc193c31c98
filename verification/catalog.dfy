/** The client item catalog (client/src/entities/ItemDatabase.ts). The server's copy of
    the catalog is assumed to be the same table. Only the fields every item kind shares
    are carried; the kind-specific statistics (damage, fire rate, effects, ...) are
    copied verbatim by instantiation just like these and are not listed. */
module Catalog {
  import opened Wrappers
  import Random

  datatype Rarity = Common | Uncommon | Rare | Epic | Legendary

  /** The `type` field. */
  datatype ItemType =
    | Plain | RangedWeapon | MeleeWeapon | Active | Consumable
    | Throwable | Deployable | Passive | Special

  /** `{ x, y, rotation? }`. */
  datatype Position = Position(x: real, y: real, rotation: Option<real>)

  const Origin := Position(0.0, 0.0, None)

  datatype Item = Item(
    id: int,
    itemLabel: string,  // the `label` field (`label` is a Dafny keyword)
    name: string,
    icon: string,
    quantity: Option<int>,
    durability: Option<int>,
    rarity: Rarity,
    position: Position,
    kind: ItemType,
    slotType: Option<string>)

  /** `ItemDatabase`, key by key in declaration order (the order `Object.keys` reports). */
  const Entries: seq<(string, Item)> := [
      ("medkit", Item(1, "Medkit", "Аптечка", "mdi:medication", Some(1), None, Uncommon, Origin, Active, None)),
      ("ammo_pistol", Item(2, "Pistol Ammo", "Патроны для пистолета", "mdi:pistol", Some(12), None, Common, Origin, Passive, Some("utility"))),
      ("pistol", Item(3, "Pistol", "Пистолет", "mdi:pistol", None, Some(100), Uncommon, Origin, RangedWeapon, None)),
      ("assault_rifle", Item(4, "Assault Rifle", "Штурмовая винтовка", "mdi:gun", None, Some(100), Rare, Origin, RangedWeapon, None)),
      ("knife", Item(5, "Knife", "Нож", "mdi:knife", None, Some(200), Common, Origin, MeleeWeapon, None)),
      ("katana", Item(6, "Katana", "Катана", "mdi:sword", None, Some(150), Rare, Origin, MeleeWeapon, None)),
      ("throwing_knife", Item(7, "Throwing Knife", "Метательный нож", "mdi:knife-military", Some(3), None, Uncommon, Origin, Throwable, None)),
      ("molotov", Item(8, "Molotov Cocktail", "Коктейль Молотова", "mdi:fire", Some(1), None, Rare, Origin, Throwable, None)),
      ("barricade", Item(9, "Barricade", "Баррикада", "mdi:wall", None, Some(200), Uncommon, Origin, Deployable, None)),
      ("turret", Item(10, "Auto Turret", "Авто-турель", "mdi:robot", None, Some(100), Epic, Origin, Deployable, None)),
      ("kevlar_vest", Item(11, "Kevlar Vest", "Кевларовый жилет", "mdi:shield", None, Some(100), Rare, Origin, Passive, Some("chestplate"))),
      ("tactical_helmet", Item(12, "Tactical Helmet", "Тактический шлем", "mdi:hard-hat", None, Some(80), Uncommon, Origin, Passive, Some("helmet"))),
      ("adrenaline_injector", Item(13, "Adrenaline Injector", "Адреналиновый инъектор", "mdi:needle", Some(1), None, Legendary, Origin, Special, Some("special"))),
      ("stealth_module", Item(14, "Stealth Module", "Модуль скрытности", "mdi:ghost", None, Some(50), Epic, Origin, Special, Some("special"))),
      ("storm_crossbow", Item(15, "ranged_weapon", "Штормовой арбалет", "game-icons:crossbow", Some(1), Some(200), Epic, Origin, RangedWeapon, None)),
      ("shadow_claws", Item(16, "melee_weapon", "Когти тени", "game-icons:bird-claw", Some(1), Some(150), Rare, Origin, MeleeWeapon, None)),
      ("ancient_helmet", Item(17, "armor", "Шлем древнего воина", "game-icons:dwarf-helmet", Some(1), None, Legendary, Origin, Passive, Some("helmet"))),
      ("spike_grenade", Item(18, "throwable", "Граната с шипами", "game-icons:bundle-grenade", Some(3), None, Uncommon, Origin, Throwable, None)),
      ("speedster_boots", Item(19, "armor", "Сапоги скорохода", "game-icons:running-shoe", Some(1), None, Rare, Origin, Passive, Some("boots"))),
      ("auto_turret", Item(20, "deployable", "Мини-турель", "carbon:iot-connect", Some(1), Some(100), Epic, Origin, Deployable, None)),
      ("fury_potion", Item(21, "consumable", "Зелье ярости", "hugeicons:potion", Some(1), None, Rare, Origin, Active, None)),
      ("mammoth_plate", Item(22, "armor", "Нагрудник мамонта", "game-icons:leather-vest", Some(1), None, Epic, Origin, Passive, Some("chestplate"))),
      ("vampire_dagger", Item(23, "melee_weapon", "Кинжал вампира", "game-icons:stiletto", Some(1), Some(120), Legendary, Origin, MeleeWeapon, None)),
      ("revival_totem", Item(24, "special", "Тотем возрождения", "game-icons:totem-head", Some(1), None, Legendary, Origin, Special, Some("special")))
    ]

  /** Each template's id is its place in the table, counted from 1. */
  predicate IdsCountFrom(entries: seq<(string, Item)>, first: int)
  {
    forall i :: 0 <= i < |entries| ==> entries[i].1.id == first + i
  }

  lemma CatalogIds()
    ensures |Entries| == 24
    ensures IdsCountFrom(Entries, 1)
  {
  }

  /** The keys of the table are pairwise distinct, as the keys of an object literal are. */
  lemma CatalogKeysDistinct()
    ensures forall i, j :: 0 <= i < j < |Entries| ==> Entries[i].0 != Entries[j].0
  {
  }

  /** The template stored under `key`, found by scanning the table in order. */
  function Lookup(entries: seq<(string, Item)>, key: string): (r: Option<Item>)
    ensures r.Some? <==> exists i :: 0 <= i < |entries| && entries[i].0 == key
    ensures r.Some? ==> exists i :: 0 <= i < |entries| && entries[i] == (key, r.value)
  {
    if entries == [] then None
    else if entries[0].0 == key then Some(entries[0].1)
    else
      var r := Lookup(entries[1..], key);
      assert forall i :: 0 <= i < |entries| - 1 ==> entries[1..][i] == entries[i + 1];
      r
  }

  /** The first template whose `id` field equals `id`. */
  function FindById(entries: seq<(string, Item)>, id: int): (r: Option<Item>)
    ensures r.Some? ==> r.value.id == id && exists i :: 0 <= i < |entries| && entries[i].1 == r.value
    ensures r.None? <==> forall i :: 0 <= i < |entries| ==> entries[i].1.id != id
  {
    if entries == [] then None
    else if entries[0].1.id == id then Some(entries[0].1)
    else
      var r := FindById(entries[1..], id);
      assert forall i :: 0 <= i < |entries| - 1 ==> entries[1..][i] == entries[i + 1];
      r
  }

  /** `getItemByLabel(label)`: despite its name, indexes the table by key, not by the `label` field. */
  function GetItemByLabel(key: string): (r: Option<Item>)
    ensures r.Some? <==> exists i :: 0 <= i < |Entries| && Entries[i].0 == key
    ensures r.Some? ==> exists i :: 0 <= i < |Entries| && Entries[i] == (key, r.value)
  {
    Lookup(Entries, key)
  }

  /** `getItemById(id)`: the first template, in table order, with that id. */
  function GetItemById(id: int): (r: Option<Item>)
    ensures r.Some? ==> r.value.id == id
  {
    FindById(Entries, id)
  }

  /** In a table whose ids count up from `first`, the search by id lands on place `id - first`. */
  lemma {:induction false} FindByCountingId(entries: seq<(string, Item)>, first: int, id: int)
    requires IdsCountFrom(entries, first)
    ensures first <= id < first + |entries| ==> FindById(entries, id) == Some(entries[id - first].1)
    ensures !(first <= id < first + |entries|) ==> FindById(entries, id) == None
  {
    if entries != [] && entries[0].1.id != id {
      assert IdsCountFrom(entries[1..], first + 1) by {
        forall i | 0 <= i < |entries| - 1 ensures entries[1..][i].1.id == first + 1 + i {
          assert entries[1..][i] == entries[i + 1];
        }
      }
      FindByCountingId(entries[1..], first + 1, id);
    }
  }

  /** The catalog ids are exactly 1..24: `getItemById(n)` finds the n-th template for
      n in 1..24 and nothing otherwise. */
  lemma GetItemByIdExact(n: int)
    ensures 1 <= n <= 24 ==> GetItemById(n) == Some(Entries[n - 1].1)
    ensures !(1 <= n <= 24) ==> GetItemById(n) == None
  {
    CatalogIds();
    FindByCountingId(Entries, 1, n);
  }

  /** Labels are not keys and are not unique: `storm_crossbow` carries the label
      "ranged_weapon", which is no key, and two armour pieces share the label "armor". */
  lemma LabelsAreNotKeys()
    ensures GetItemByLabel("storm_crossbow").Some?
    ensures GetItemByLabel("storm_crossbow").value.itemLabel == "ranged_weapon"
    ensures GetItemByLabel("ranged_weapon") == None
    ensures Entries[16].1.itemLabel == Entries[18].1.itemLabel == "armor"
  {
    assert Entries[14].0 == "storm_crossbow";
    CatalogKeysDistinct();
    NoKeyRangedWeapon();
  }

  /** "ranged_weapon" is a label but no key. */
  lemma NoKeyRangedWeapon()
    ensures forall i :: 0 <= i < |Entries| ==> Entries[i].0 != "ranged_weapon"
  {
  }

  /** `createItemInstance(label, position)`: a copy of the template under `key` with the
      position replaced by `position` and the id by `now + Math.floor(Math.random() * 1000)`;
      `now` is `Date.now()` and `jitter` the draw. */
  function CreateItemInstance(key: string, position: Position, now: int, jitter: Random.Draw): (r: Option<Item>)
    ensures r.None? <==> GetItemByLabel(key).None?
    ensures r.Some? ==> r.value.position == position
    ensures r.Some? ==> now <= r.value.id <= now + 999
    ensures r.Some? ==> r.value.(id := GetItemByLabel(key).value.id, position := GetItemByLabel(key).value.position)
                        == GetItemByLabel(key).value
  {
    match GetItemByLabel(key)
    case None => None
    case Some(template) =>
      Some(template.(position := position, id := now + Random.ScaledIndex(jitter, 1000)))
  }

  /** Every key in the table instantiates. */
  lemma CatalogKeysInstantiate(i: int, position: Position, now: int, jitter: Random.Draw)
    requires 0 <= i < |Entries|
    ensures CreateItemInstance(Entries[i].0, position, now, jitter).Some?
  {
  }

  /** Every id in [now, now + 999] is a possible id of a fresh instance. */
  lemma InstanceIdsReachable(key: string, position: Position, now: int, j: int)
    requires GetItemByLabel(key).Some? && 0 <= j <= 999
    ensures exists r: Random.Draw :: CreateItemInstance(key, position, now, r).value.id == now + j
  {
    Random.GetRandomIntReaches(0, 999, j);
    var r: Random.Draw :| Random.GetRandomInt(0, 999, r) == j;
    assert CreateItemInstance(key, position, now, r).value.id == now + j;
  }
}
