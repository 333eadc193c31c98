/** The kill-feed store (client/src/stores/map-data-store.ts): a list of actions and a
    module-level counter that numbers them from 1. The counter lives outside the store,
    so replacing the list never resets it; the feed carries both. The optional icon is a
    rendering node and is not modelled. */
module ActionFeed {
  import opened Wrappers

  datatype Action = Action(id: int, text: string, color: string)

  datatype Feed = Feed(actions: seq<Action>, counter: int)

  const DefaultColor: string := "text-red-600"

  /** The store as the page loads: no actions, the counter at 1. */
  function Initial(): (f: Feed)
    ensures f.actions == [] && f.counter == 1
  {
    Feed([], 1)
  }

  /** `newAction(text, color)`: the action takes the counter's value, the counter moves
      on, and the action is appended; the colour defaults to red. */
  function NewAction(f: Feed, text: string, color: Option<string>): (r: (Feed, Action))
    ensures r.1.id == f.counter && r.1.text == text
    ensures r.1.color == (if color.Some? then color.value else DefaultColor)
    ensures r.0.actions == f.actions + [r.1] && r.0.counter == f.counter + 1
  {
    var action := Action(f.counter, text, color.GetOr(DefaultColor));
    (Feed(f.actions + [action], f.counter + 1), action)
  }

  /** `setActions(value)`: the list is replaced; the counter is untouched. */
  function SetActions(f: Feed, actions: seq<Action>): (r: Feed)
    ensures r.actions == actions && r.counter == f.counter
  {
    f.(actions := actions)
  }

  /** The numbering invariant: ids strictly increase along the list and all lie below
      the counter. */
  predicate Numbered(f: Feed) {
    && (forall i, j :: 0 <= i < j < |f.actions| ==> f.actions[i].id < f.actions[j].id)
    && (forall i :: 0 <= i < |f.actions| ==> f.actions[i].id < f.counter)
  }

  /** The actions that pass `keep`, in order: a filtered replacement list for
      `setActions`. */
  function Keep(actions: seq<Action>, keep: Action -> bool): (r: seq<Action>)
    ensures |r| <= |actions|
    ensures forall j :: 0 <= j < |r| ==> keep(r[j]) && r[j] in actions
    decreases |actions|
  {
    if actions == [] then []
    else (if keep(actions[0]) then [actions[0]] else []) + Keep(actions[1..], keep)
  }

  /** A kept action's id is at least the first action's id. */
  lemma {:induction false} KeepBounded(actions: seq<Action>, keep: Action -> bool, lo: int)
    requires forall i :: 0 <= i < |actions| ==> lo <= actions[i].id
    ensures forall j :: 0 <= j < |Keep(actions, keep)| ==> lo <= Keep(actions, keep)[j].id
  {
  }

  /** Filtering keeps the ids strictly increasing. */
  lemma {:induction false} KeepIncreasing(actions: seq<Action>, keep: Action -> bool)
    requires forall i, j :: 0 <= i < j < |actions| ==> actions[i].id < actions[j].id
    ensures forall i, j :: 0 <= i < j < |Keep(actions, keep)| ==> Keep(actions, keep)[i].id < Keep(actions, keep)[j].id
    decreases |actions|
  {
    if actions != [] {
      var rest := actions[1..];
      KeepIncreasing(rest, keep);
      if |rest| > 0 {
        assert forall i :: 0 <= i < |rest| ==> actions[0].id + 1 <= rest[i].id by {
          forall i | 0 <= i < |rest| ensures actions[0].id + 1 <= rest[i].id {
            assert rest[i] == actions[i + 1];
          }
        }
        KeepBounded(rest, keep, actions[0].id + 1);
      }
    }
  }

  /** Appending a new action keeps the numbering. */
  lemma NewActionNumbered(f: Feed, text: string, color: Option<string>)
    requires Numbered(f)
    ensures Numbered(NewAction(f, text, color).0)
  {
  }

  /** Dropping actions through `setActions` keeps the numbering. */
  lemma SetActionsNumbered(f: Feed, keep: Action -> bool)
    requires Numbered(f)
    ensures Numbered(SetActions(f, Keep(f.actions, keep)))
  {
    KeepIncreasing(f.actions, keep);
  }

  /** What happens to the feed: an announced action, or a list filtered by a predicate. */
  datatype Change = Announce(text: string, color: Option<string>) | Prune(keep: Action -> bool)

  function ApplyAll(f: Feed, cs: seq<Change>): Feed
    decreases |cs|
  {
    if cs == [] then f
    else
      var g := match cs[0]
        case Announce(text, color) => NewAction(f, text, color).0
        case Prune(keep) => SetActions(f, Keep(f.actions, keep));
      ApplyAll(g, cs[1..])
  }

  /** From the initial store, through any announcements and prunings, the feed holds
      every id at most once, in increasing order, below the counter; so React keys built
      from ids never clash. */
  lemma {:induction false} FeedIdsUnique(f: Feed, cs: seq<Change>)
    requires Numbered(f)
    ensures Numbered(ApplyAll(f, cs))
    ensures ApplyAll(f, cs).counter >= f.counter
    decreases |cs|
  {
    if cs != [] {
      match cs[0] {
        case Announce(text, color) => NewActionNumbered(f, text, color);
        case Prune(keep) => SetActionsNumbered(f, keep);
      }
      var g := match cs[0]
        case Announce(text, color) => NewAction(f, text, color).0
        case Prune(keep) => SetActions(f, Keep(f.actions, keep));
      FeedIdsUnique(g, cs[1..]);
    }
  }
}
