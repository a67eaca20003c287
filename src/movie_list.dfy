/** The movie list: the fetched movies, the sort key and order state with its
    toggle, and the sorted copy that is rendered. The built-in sort is
    stable, so the sorted copy is modelled by a stable insertion sort on
    values, and the copy `[...movies]` means the state itself is never
    reordered. */
module MovieList {
  import opened Common
  import MoviesRoute

  type Movie = MoviesRoute.MovieStats

  datatype SortBy = ByRating | ByDate
  datatype SortOrder = Asc | Desc

  /** The number the comparator subtracts: the average, or the creation time
      in milliseconds. */
  function Key(m: Movie, sortKey: SortBy): int
  {
    match sortKey
    case ByRating => m.averageTenths
    case ByDate => m.createdAt
  }

  /** The comparator passed to `sort`. */
  function Comparison(a: Movie, b: Movie, sortKey: SortBy, order: SortOrder): int
  {
    var c := Key(a, sortKey) - Key(b, sortKey);
    if order == Asc then c else -c
  }

  /** `a` may be placed before `b`: non-decreasing keys ascending,
      non-increasing keys descending. */
  predicate Precedes(a: Movie, b: Movie, sortKey: SortBy, order: SortOrder)
  {
    if order == Asc then Key(a, sortKey) <= Key(b, sortKey) else Key(a, sortKey) >= Key(b, sortKey)
  }

  predicate InOrder(s: seq<Movie>, sortKey: SortBy, order: SortOrder)
  {
    forall i, j :: 0 <= i < j < |s| ==> Precedes(s[i], s[j], sortKey, order)
  }

  /** The movies of `s` whose key is `k`, in their order in `s`. */
  function WithKey(s: seq<Movie>, sortKey: SortBy, k: int): seq<Movie>
  {
    if s == [] then [] else (if Key(s[0], sortKey) == k then [s[0]] else []) + WithKey(s[1..], sortKey, k)
  }

  /** Places `x` before the first movie that the comparator does not put
      before it; `x` thus stays ahead of every movie with the same key. */
  function Insert(x: Movie, s: seq<Movie>, sortKey: SortBy, order: SortOrder): (r: seq<Movie>)
    ensures |r| == |s| + 1
  {
    if s == [] || Comparison(x, s[0], sortKey, order) <= 0 then [x] + s
    else [s[0]] + Insert(x, s[1..], sortKey, order)
  }

  /** Inserting keeps every movie and adds exactly the inserted one. */
  lemma {:induction false} InsertPermutes(x: Movie, s: seq<Movie>, sortKey: SortBy, order: SortOrder)
    ensures multiset(Insert(x, s, sortKey, order)) == multiset(s) + multiset{x}
  {
    if s != [] && Comparison(x, s[0], sortKey, order) > 0 {
      InsertPermutes(x, s[1..], sortKey, order);
      assert s == [s[0]] + s[1..];
      assert multiset(s) == multiset{s[0]} + multiset(s[1..]);
    }
  }

  /** `[...movies].sort(comparator)` */
  function Sort(s: seq<Movie>, sortKey: SortBy, order: SortOrder): (r: seq<Movie>)
  {
    if s == [] then [] else Insert(s[0], Sort(s[1..], sortKey, order), sortKey, order)
  }

  /** Every movie of `s` may follow `b`. */
  predicate AllFollow(b: Movie, s: seq<Movie>, sortKey: SortBy, order: SortOrder)
  {
    forall i :: 0 <= i < |s| ==> Precedes(b, s[i], sortKey, order)
  }

  lemma {:induction false} InsertAllFollow(b: Movie, x: Movie, s: seq<Movie>, sortKey: SortBy, order: SortOrder)
    requires AllFollow(b, s, sortKey, order) && Precedes(b, x, sortKey, order)
    ensures AllFollow(b, Insert(x, s, sortKey, order), sortKey, order)
  {
    if s != [] && Comparison(x, s[0], sortKey, order) > 0 {
      InsertAllFollow(b, x, s[1..], sortKey, order);
      var r := Insert(x, s, sortKey, order);
      assert r[1..] == Insert(x, s[1..], sortKey, order);
      forall i | 0 <= i < |r| ensures Precedes(b, r[i], sortKey, order) {
        if i > 0 { assert r[i] == r[1..][i - 1]; }
      }
    }
  }

  lemma {:induction false} InsertInOrder(x: Movie, s: seq<Movie>, sortKey: SortBy, order: SortOrder)
    requires InOrder(s, sortKey, order)
    ensures InOrder(Insert(x, s, sortKey, order), sortKey, order)
  {
    if s != [] && Comparison(x, s[0], sortKey, order) > 0 {
      var t := Insert(x, s[1..], sortKey, order);
      InsertInOrder(x, s[1..], sortKey, order);
      assert AllFollow(s[0], s[1..], sortKey, order) by {
        forall i | 0 <= i < |s[1..]| ensures Precedes(s[0], s[1..][i], sortKey, order) {
          assert s[1..][i] == s[i + 1];
        }
      }
      InsertAllFollow(s[0], x, s[1..], sortKey, order);
      var r := [s[0]] + t;
      forall i, j | 0 <= i < j < |r| ensures Precedes(r[i], r[j], sortKey, order) {
        if i == 0 {
          assert r[j] == t[j - 1];
        } else {
          assert r[i] == t[i - 1] && r[j] == t[j - 1];
        }
      }
    } else if s != [] {
      var r := [x] + s;
      forall i, j | 0 <= i < j < |r| ensures Precedes(r[i], r[j], sortKey, order) {
        if i == 0 {
          assert Precedes(x, s[0], sortKey, order);
          if j > 1 { assert Precedes(s[0], s[j - 1], sortKey, order); }
        } else {
          assert r[i] == s[i - 1] && r[j] == s[j - 1];
        }
      }
    }
  }

  /** The sorted copy is in comparator order: keys non-decreasing ascending,
      non-increasing descending. */
  lemma {:induction false} SortInOrder(s: seq<Movie>, sortKey: SortBy, order: SortOrder)
    ensures InOrder(Sort(s, sortKey, order), sortKey, order)
  {
    if s != [] {
      SortInOrder(s[1..], sortKey, order);
      InsertInOrder(s[0], Sort(s[1..], sortKey, order), sortKey, order);
    }
  }

  /** The sorted copy holds the same movies, each as often. */
  lemma {:induction false} SortPermutes(s: seq<Movie>, sortKey: SortBy, order: SortOrder)
    ensures multiset(Sort(s, sortKey, order)) == multiset(s)
  {
    if s != [] {
      SortPermutes(s[1..], sortKey, order);
      InsertPermutes(s[0], Sort(s[1..], sortKey, order), sortKey, order);
      assert s == [s[0]] + s[1..];
      assert multiset(s) == multiset{s[0]} + multiset(s[1..]);
    }
  }

  lemma {:induction false} InsertWithKey(x: Movie, s: seq<Movie>, sortKey: SortBy, order: SortOrder, k: int)
    ensures WithKey(Insert(x, s, sortKey, order), sortKey, k)
            == (if Key(x, sortKey) == k then [x] else []) + WithKey(s, sortKey, k)
  {
    var own: seq<Movie> := if Key(x, sortKey) == k then [x] else [];
    if s == [] || Comparison(x, s[0], sortKey, order) <= 0 {
      assert ([x] + s)[1..] == s;
    } else {
      var t := Insert(x, s[1..], sortKey, order);
      InsertWithKey(x, s[1..], sortKey, order, k);
      var head: seq<Movie> := if Key(s[0], sortKey) == k then [s[0]] else [];
      assert ([s[0]] + t)[1..] == t;
      assert WithKey([s[0]] + t, sortKey, k) == head + WithKey(t, sortKey, k);
      assert WithKey(s, sortKey, k) == head + WithKey(s[1..], sortKey, k);
      assert head == [] || own == [];
      assert head + own == own + head;
    }
  }

  /** Stability: for every key, the movies with that key appear in the
      sorted copy in the order they were fetched. */
  lemma {:induction false} SortStable(s: seq<Movie>, sortKey: SortBy, order: SortOrder, k: int)
    ensures WithKey(Sort(s, sortKey, order), sortKey, k) == WithKey(s, sortKey, k)
  {
    if s != [] {
      SortStable(s[1..], sortKey, order, k);
      InsertWithKey(s[0], Sort(s[1..], sortKey, order), sortKey, order, k);
    }
  }

  /** The toggle of the sort buttons as a function of the current state. */
  function AfterSortChange(sortKey: SortBy, order: SortOrder, chosen: SortBy): (SortBy, SortOrder)
  {
    if sortKey == chosen then (sortKey, if order == Asc then Desc else Asc) else (chosen, Desc)
  }

  /** Choosing the current key flips the order and keeps the key; doing it
      twice restores the state. */
  lemma {:induction false} SameKeyFlips(sortKey: SortBy, order: SortOrder)
    ensures AfterSortChange(sortKey, order, sortKey).0 == sortKey && AfterSortChange(sortKey, order, sortKey).1 != order
    ensures var (b, o) := AfterSortChange(sortKey, order, sortKey); AfterSortChange(b, o, sortKey) == (sortKey, order)
  {
  }

  /** Choosing another key selects it, descending, whatever the order was. */
  lemma {:induction false} OtherKeyResets(sortKey: SortBy, order: SortOrder, chosen: SortBy)
    requires chosen != sortKey
    ensures AfterSortChange(sortKey, order, chosen) == (chosen, Desc)
  {
  }

  class MovieListState {
    var movies: seq<Movie>
    var loading: bool
    var sortBy: SortBy
    var sortOrder: SortOrder

    /** Nothing loaded yet, newest first. */
    constructor ()
      ensures movies == [] && loading && sortBy == ByDate && sortOrder == Desc
    {
      movies := [];
      loading := true;
      sortBy := ByDate;
      sortOrder := Desc;
    }

    /** `fetchMovies`: the response JSON replaces the list (an error response
        of the listing is an empty array); when the fetch itself fails
        (`data` is None) the list stays. Loading ends either way. */
    method FetchMovies(data: Option<seq<Movie>>)
      modifies this
      ensures data.Some? ==> movies == data.value
      ensures data.None? ==> movies == old(movies)
      ensures !loading && sortBy == old(sortBy) && sortOrder == old(sortOrder)
    {
      if data.Some? {
        movies := data.value;
      }
      loading := false;
    }

    /** `handleSortChange`. */
    method HandleSortChange(chosen: SortBy)
      modifies this
      ensures (sortBy, sortOrder) == AfterSortChange(old(sortBy), old(sortOrder), chosen)
      ensures old(sortBy) == chosen ==> sortBy == chosen && sortOrder != old(sortOrder)
      ensures old(sortBy) != chosen ==> sortBy == chosen && sortOrder == Desc
      ensures movies == old(movies) && loading == old(loading)
    {
      if sortBy == chosen {
        sortOrder := if sortOrder == Asc then Desc else Asc;
      } else {
        sortBy := chosen;
        sortOrder := Desc;
      }
    }

    /** `sortedMovies`: the rendered order. */
    function SortedMovies(): (r: seq<Movie>)
      reads this
      ensures multiset(r) == multiset(movies)
      ensures InOrder(r, sortBy, sortOrder)
      ensures forall k :: WithKey(r, sortBy, k) == WithKey(movies, sortBy, k)
    {
      SortPermutes(movies, sortBy, sortOrder);
      SortInOrder(movies, sortBy, sortOrder);
      forall k ensures WithKey(Sort(movies, sortBy, sortOrder), sortBy, k) == WithKey(movies, sortBy, k) {
        SortStable(movies, sortBy, sortOrder, k);
      }
      Sort(movies, sortBy, sortOrder)
    }
  }
}
