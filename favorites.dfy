/** `FavoriteNumbersService`: the saved tickets, one entry per game name and
    list of numbers, kept in the order they were added. */
module Favorites {
  import opened Wrappers
  import opened Text
  import opened Filtering

  /** `FavoriteNumberEntry`. The `UUID` is an opaque number handed in by the
      caller, the save date a time in seconds. */
  datatype Entry = Entry(id: nat, gameType: string, numbers: seq<string>, savedAt: int)
  {
    /** `displayString`: the numbers joined by `" 🍀 "`. */
    function DisplayString(): (r: string)
    {
      Join(numbers, CloverSeparator)
    }

    /** The entry stands for this game and these numbers. */
    predicate Matches(g: string, ns: seq<string>)
    {
      gameType == g && numbers == ns
    }
  }

  /** The display string splits back into the numbers, when the entry has at
      least one and none holds a clover or surrounding blanks. */
  lemma DisplayStringRoundTrip(e: Entry)
    requires |e.numbers| >= 1
    requires forall k :: 0 <= k < |e.numbers| ==>
      Clover !in e.numbers[k] && Trimmed(e.numbers[k], WhitespacesAndNewlines)
    ensures TrimEach(Split(e.DisplayString(), Clover), WhitespacesAndNewlines) == e.numbers
  {
    SplitTrimJoin(e.numbers, Clover, WhitespacesAndNewlines);
  }

  // ------------------------------------------------------- the list as values

  /** `isFavorited(gameType:numbers:)`: `contains(where:)` over the list. */
  function IsFavorited(favs: seq<Entry>, g: string, ns: seq<string>): (r: bool)
  {
    if |favs| == 0 then false
    else favs[0].Matches(g, ns) || IsFavorited(favs[1..], g, ns)
  }

  /** Some entry has that game and those numbers. */
  lemma {:induction false} IsFavoritedIff(favs: seq<Entry>, g: string, ns: seq<string>)
    ensures IsFavorited(favs, g, ns) <==> exists i :: 0 <= i < |favs| && favs[i].Matches(g, ns)
  {
    if |favs| > 0 {
      IsFavoritedIff(favs[1..], g, ns);
      if exists i :: 0 <= i < |favs| && favs[i].Matches(g, ns) {
        var i :| 0 <= i < |favs| && favs[i].Matches(g, ns);
        if i > 0 { assert favs[1..][i - 1] == favs[i]; }
      }
      if exists i :: 0 <= i < |favs[1..]| && favs[1..][i].Matches(g, ns) {
        var i :| 0 <= i < |favs[1..]| && favs[1..][i].Matches(g, ns);
        assert favs[i + 1] == favs[1..][i];
      }
    }
  }

  /** `favorites` after `addFavorite`: unchanged when the pair is already
      saved, otherwise with the new entry at the end. */
  function Added(favs: seq<Entry>, e: Entry): (r: seq<Entry>)
  {
    if IsFavorited(favs, e.gameType, e.numbers) then favs else favs + [e]
  }

  /** The test `removeAll(where:)` keeps an entry by. */
  function NotMatching(g: string, ns: seq<string>): (r: Entry -> bool)
  {
    (e: Entry) => !e.Matches(g, ns)
  }

  /** `favorites` after `removeAll(where:)` for the pair. */
  function Removed(favs: seq<Entry>, g: string, ns: seq<string>): (r: seq<Entry>)
  {
    Filter(favs, NotMatching(g, ns))
  }

  /** No two entries stand for the same game and numbers. */
  predicate Unique(favs: seq<Entry>)
  {
    forall i, j :: 0 <= i < j < |favs| ==> !favs[j].Matches(favs[i].gameType, favs[i].numbers)
  }

  /** Adding leaves every earlier entry where it was and makes the pair
      saved. */
  lemma AddedSpec(favs: seq<Entry>, e: Entry)
    ensures var r := Added(favs, e);
      && |r| <= |favs| + 1
      && r[..|favs|] == favs
      && IsFavorited(r, e.gameType, e.numbers)
      && (IsFavorited(favs, e.gameType, e.numbers) ==> r == favs)
      && (!IsFavorited(favs, e.gameType, e.numbers) ==> r == favs + [e])
  {
    var r := Added(favs, e);
    IsFavoritedIff(r, e.gameType, e.numbers);
    if !IsFavorited(favs, e.gameType, e.numbers) {
      assert r[|favs|] == e;
    }
  }

  /** Adding keeps the list free of repeated pairs. */
  lemma AddedUnique(favs: seq<Entry>, e: Entry)
    requires Unique(favs)
    ensures Unique(Added(favs, e))
  {
    IsFavoritedIff(favs, e.gameType, e.numbers);
  }

  /** Removing splits over concatenation: the kept entries stay in their
      order. */
  lemma RemovedAppend(a: seq<Entry>, b: seq<Entry>, g: string, ns: seq<string>)
    ensures Removed(a + b, g, ns) == Removed(a, g, ns) + Removed(b, g, ns)
  {
    FilterAppend(a, b, NotMatching(g, ns));
  }

  /** Every kept entry was in the list and does not match; every entry that
      does not match is kept. */
  lemma RemovedMembers(favs: seq<Entry>, g: string, ns: seq<string>)
    ensures forall e :: e in Removed(favs, g, ns) <==> e in favs && !e.Matches(g, ns)
    ensures |Removed(favs, g, ns)| <= |favs|
  {
    FilterMembers(favs, NotMatching(g, ns));
  }

  /** Afterwards the pair is no longer saved; an absent pair changes
      nothing. */
  lemma RemovedSpec(favs: seq<Entry>, g: string, ns: seq<string>)
    ensures !IsFavorited(Removed(favs, g, ns), g, ns)
    ensures !IsFavorited(favs, g, ns) ==> Removed(favs, g, ns) == favs
  {
    var r := Removed(favs, g, ns);
    RemovedMembers(favs, g, ns);
    IsFavoritedIff(r, g, ns);
    IsFavoritedIff(favs, g, ns);
    if !IsFavorited(favs, g, ns) {
      RemovedNone(favs, g, ns);
    }
  }

  lemma RemovedNone(favs: seq<Entry>, g: string, ns: seq<string>)
    requires forall i :: 0 <= i < |favs| ==> !favs[i].Matches(g, ns)
    ensures Removed(favs, g, ns) == favs
  {
    FilterAll(favs, NotMatching(g, ns));
  }

  /** Removing keeps the list free of repeated pairs. */
  lemma RemovedUnique(favs: seq<Entry>, g: string, ns: seq<string>)
    requires Unique(favs)
    ensures Unique(Removed(favs, g, ns))
  {
    FilterUnique(favs, NotMatching(g, ns));
  }

  /** Dropping entries cannot create a repeated pair. */
  lemma {:induction false} FilterUnique(favs: seq<Entry>, p: Entry -> bool)
    requires Unique(favs)
    ensures Unique(Filter(favs, p))
  {
    if |favs| > 0 {
      var init := favs[..|favs| - 1];
      var last := favs[|favs| - 1];
      assert Unique(init);
      FilterUnique(init, p);
      FilterMembers(init, p);
      var prev := Filter(init, p);
      forall x | x in prev ensures !last.Matches(x.gameType, x.numbers) {
        var i :| 0 <= i < |init| && init[i] == x;
        assert favs[i] == x;
      }
    }
  }

  /** `removeAll(where:)` run over the list: the entries that do not match,
      in order. */
  method RemoveAll(favs: seq<Entry>, g: string, ns: seq<string>) returns (kept: seq<Entry>)
    ensures kept == Removed(favs, g, ns)
  {
    kept := [];
    var i := 0;
    while i < |favs|
      invariant 0 <= i <= |favs|
      invariant kept == Removed(favs[..i], g, ns)
    {
      FilterStep(favs, NotMatching(g, ns), i);
      if !favs[i].Matches(g, ns) {
        kept := kept + [favs[i]];
      }
      i := i + 1;
    }
    assert favs[..i] == favs;
  }

  // ---------------------------------------------------------- the service

  class FavoriteNumbersService {
    var favorites: seq<Entry>
    var isLoaded: bool
    /** What was last written under `"favorite_numbers_entries"`. */
    var stored: Option<seq<Entry>>

    /** `init()`, which loads once. `persisted` is what the store decodes
        to: `None` when nothing is stored or it does not decode. */
    constructor(persisted: Option<seq<Entry>>)
      ensures isLoaded && favorites == persisted.GetOr([]) && stored == None
    {
      favorites := [];
      isLoaded := false;
      stored := None;
      new;
      Load(persisted);
    }

    /** `load()`: only the first call reads the store. */
    method Load(persisted: Option<seq<Entry>>)
      modifies this
      ensures isLoaded && stored == old(stored)
      ensures old(isLoaded) ==> favorites == old(favorites)
      ensures !old(isLoaded) ==> favorites == persisted.GetOr(old(favorites))
    {
      if isLoaded {
        return;
      }
      isLoaded := true;
      if persisted.Some? {
        favorites := persisted.value;
      }
    }

    /** `addFavorite(gameType:numbers:)`; `id` and `now` become the new
        entry's `UUID` and date. */
    method AddFavorite(g: string, ns: seq<string>, id: nat, now: int)
      modifies this
      ensures favorites == Added(old(favorites), Entry(id, g, ns, now))
      ensures IsFavorited(old(favorites), g, ns) ==> stored == old(stored)
      ensures !IsFavorited(old(favorites), g, ns) ==> stored == Some(favorites)
      ensures isLoaded == old(isLoaded)
      ensures Unique(old(favorites)) ==> Unique(favorites)
    {
      if Unique(favorites) {
        AddedUnique(favorites, Entry(id, g, ns, now));
      }
      if IsFavorited(favorites, g, ns) {
        return;
      }
      var entry := Entry(id, g, ns, now);
      favorites := favorites + [entry];
      Save();
    }

    /** `removeFavorite(gameType:numbers:)`: `removeAll(where:)`, then save. */
    method RemoveFavorite(g: string, ns: seq<string>)
      modifies this
      ensures favorites == Removed(old(favorites), g, ns)
      ensures stored == Some(favorites) && isLoaded == old(isLoaded)
      ensures Unique(old(favorites)) ==> Unique(favorites)
    {
      if Unique(favorites) {
        RemovedUnique(favorites, g, ns);
      }
      var kept := RemoveAll(favorites, g, ns);
      favorites := kept;
      Save();
    }

    /** `save()`; encoding a list of entries does not fail. */
    method Save()
      modifies this
      ensures stored == Some(favorites)
      ensures favorites == old(favorites) && isLoaded == old(isLoaded)
    {
      stored := Some(favorites);
    }
  }
}
