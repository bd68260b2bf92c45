/** The search filter modal: chosen platform ids and genres are toggled in and
    out of two lists, the sort order is picked, and "apply" hands the three to the
    search screen. */
module SearchFilterModal {

  const DefaultSortBy: string := "relevance"

  /** `prev.filter(id => id !== x)`. */
  function Without(prev: seq<string>, x: string): (r: seq<string>)
    ensures x !in r
    ensures forall y :: y != x ==> (y in r <==> y in prev)
    ensures |r| <= |prev|
  {
    if prev == [] then []
    else (if prev[0] == x then [] else [prev[0]]) + Without(prev[1..], x)
  }

  /** Removing an absent value changes nothing. */
  lemma {:induction false} WithoutAbsent(prev: seq<string>, x: string)
    requires x !in prev
    ensures Without(prev, x) == prev
  {
    if prev != [] {
      WithoutAbsent(prev[1..], x);
      assert prev == [prev[0]] + prev[1..];
    }
  }

  /** Removing distributes over concatenation, so the kept values stay in order. */
  lemma {:induction false} WithoutAppend(a: seq<string>, b: seq<string>, x: string)
    ensures Without(a + b, x) == Without(a, x) + Without(b, x)
  {
    if a != [] {
      assert (a + b)[1..] == a[1..] + b;
      WithoutAppend(a[1..], b, x);
    } else {
      assert a + b == b;
    }
  }

  /** No value occurs twice. */
  predicate NoDuplicates(s: seq<string>)
  {
    forall i, j :: 0 <= i < j < |s| ==> s[i] != s[j]
  }

  lemma {:induction false} WithoutKeepsNoDuplicates(prev: seq<string>, x: string)
    requires NoDuplicates(prev)
    ensures NoDuplicates(Without(prev, x))
  {
    if prev != [] {
      WithoutKeepsNoDuplicates(prev[1..], x);
      var rest := Without(prev[1..], x);
      if prev[0] != x {
        assert prev[0] !in prev[1..];
        assert prev[0] !in rest;
      }
    }
  }

  /** The updater `togglePlatform` and `toggleGenre` pass to their setters: remove
      every occurrence of a present value, append an absent one. */
  function Toggle(prev: seq<string>, x: string): seq<string>
  {
    if x in prev then Without(prev, x) else prev + [x]
  }

  /** Toggling flips the membership of `x`, leaves every other value's
      membership alone, removes all copies of a present `x`, and appends an
      absent `x` at the end. */
  lemma ToggleMembership(prev: seq<string>, x: string)
    ensures x in Toggle(prev, x) <==> x !in prev
    ensures forall y :: y != x ==> (y in Toggle(prev, x) <==> y in prev)
    ensures x !in prev ==> Toggle(prev, x) == prev + [x]
    ensures x in prev ==> forall i :: 0 <= i < |Toggle(prev, x)| ==> Toggle(prev, x)[i] != x
  {
  }

  /** Toggling keeps a duplicate-free list duplicate-free. */
  lemma ToggleKeepsNoDuplicates(prev: seq<string>, x: string)
    requires NoDuplicates(prev)
    ensures NoDuplicates(Toggle(prev, x))
  {
    if x in prev {
      WithoutKeepsNoDuplicates(prev, x);
    }
  }

  /** Toggling an absent value twice gives back the list exactly; toggling a
      present one twice moves it to the end. */
  lemma ToggleTwice(prev: seq<string>, x: string)
    ensures x !in prev ==> Toggle(Toggle(prev, x), x) == prev
    ensures x in prev ==> Toggle(Toggle(prev, x), x) == Without(prev, x) + [x]
  {
    if x !in prev {
      WithoutAppend(prev, [x], x);
      WithoutAbsent(prev, x);
      assert Without([x], x) == [];
    }
  }

  /** What `handleApply` hands to `onApply`. */
  datatype Filters = Filters(platforms: seq<string>, genres: seq<string>, sortBy: string)

  /** The modal's state hooks. */
  class FilterModal {
    var selectedPlatforms: seq<string>
    var selectedGenres: seq<string>
    var sortBy: string

    /** Neither list ever holds a value twice. */
    ghost predicate Valid()
      reads this
    {
      NoDuplicates(selectedPlatforms) && NoDuplicates(selectedGenres)
    }

    /** The initial `useState` values. */
    constructor ()
      ensures Valid()
      ensures selectedPlatforms == [] && selectedGenres == [] && sortBy == DefaultSortBy
    {
      selectedPlatforms := [];
      selectedGenres := [];
      sortBy := DefaultSortBy;
    }

    method TogglePlatform(platformId: string)
      requires Valid()
      modifies this
      ensures Valid()
      ensures selectedPlatforms == Toggle(old(selectedPlatforms), platformId)
      ensures selectedGenres == old(selectedGenres) && sortBy == old(sortBy)
    {
      ToggleKeepsNoDuplicates(selectedPlatforms, platformId);
      selectedPlatforms := Toggle(selectedPlatforms, platformId);
    }

    method ToggleGenre(genre: string)
      requires Valid()
      modifies this
      ensures Valid()
      ensures selectedGenres == Toggle(old(selectedGenres), genre)
      ensures selectedPlatforms == old(selectedPlatforms) && sortBy == old(sortBy)
    {
      ToggleKeepsNoDuplicates(selectedGenres, genre);
      selectedGenres := Toggle(selectedGenres, genre);
    }

    /** `setSortBy`. */
    method SetSortBy(value: string)
      requires Valid()
      modifies this
      ensures Valid()
      ensures sortBy == value
      ensures selectedPlatforms == old(selectedPlatforms) && selectedGenres == old(selectedGenres)
    {
      sortBy := value;
    }

    /** `handleClear`: back to the initial state. */
    method Clear()
      modifies this
      ensures Valid()
      ensures selectedPlatforms == [] && selectedGenres == [] && sortBy == DefaultSortBy
    {
      selectedPlatforms := [];
      selectedGenres := [];
      sortBy := DefaultSortBy;
    }

    /** `handleApply`: emits the current choices unchanged and changes nothing. */
    method Apply() returns (f: Filters)
      ensures f.platforms == selectedPlatforms && f.genres == selectedGenres && f.sortBy == sortBy
    {
      f := Filters(selectedPlatforms, selectedGenres, sortBy);
    }
  }
}
