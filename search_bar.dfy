/**
 * The search bar: the text being typed, the five most recent distinct committed
 * queries (most recent first), and the handlers that report a query to the parent.
 * A report to the parent's `onSearch` callback is the handler's result.
 */
module SearchBar {
  import opened Wrappers
  import opened Seqs
  import Text

  /** How many committed queries the history keeps. */
  const HistoryLimit: nat := 5

  predicate NoDuplicates(h: seq<string>) {
    forall i, j :: 0 <= i < j < |h| ==> h[i] != h[j]
  }

  /** `h.filter(item => item !== q)` */
  function Without(h: seq<string>, q: string): (r: seq<string>)
    ensures forall x :: x in r <==> x in h && x != q
    ensures |r| <= |h|
    ensures q !in h ==> r == h
    ensures q in h && NoDuplicates(h) ==> |r| == |h| - 1
  {
    if h == [] then []
    else if h[0] == q then Without(h[1..], q)
    else [h[0]] + Without(h[1..], q)
  }

  /** `[q, ...h.filter(item => item !== q)].slice(0, 5)` */
  function Pushed(h: seq<string>, q: string): (r: seq<string>)
    ensures forall x :: x in r ==> x == q || x in h
  {
    var full := [q] + Without(h, q);
    if |full| <= HistoryLimit then full else full[..HistoryLimit]
  }

  /** The committed query heads the history, which never grows past the limit. */
  lemma PushedShape(h: seq<string>, q: string)
    ensures 1 <= |Pushed(h, q)| <= HistoryLimit && Pushed(h, q)[0] == q
  {
  }

  /** A history without duplicates stays without duplicates. */
  lemma PushedNoDuplicates(h: seq<string>, q: string)
    requires NoDuplicates(h)
    ensures NoDuplicates(Pushed(h, q))
  {
    var w := Without(h, q);
    WithoutNoDuplicates(h, q);
    assert NoDuplicates([q] + w) by {
      forall i, j | 0 <= i < j < |[q] + w| ensures ([q] + w)[i] != ([q] + w)[j] {
        if i == 0 {
          assert ([q] + w)[j] == w[j - 1];
        } else {
          assert ([q] + w)[i] == w[i - 1] && ([q] + w)[j] == w[j - 1];
        }
      }
    }
  }

  lemma {:induction false} WithoutIsSubsequence(h: seq<string>, q: string)
    ensures IsSubsequence(Without(h, q), h)
  {
    if h != [] {
      WithoutIsSubsequence(h[1..], q);
      if h[0] != q {
        assert Without(h, q)[1..] == Without(h[1..], q);
      } else {
        var w := Without(h, q);
        if w != [] {
          SkipHead(w, h);
        }
      }
    }
  }

  /** Filtering keeps a duplicate-free history duplicate-free. */
  lemma {:induction false} WithoutNoDuplicates(h: seq<string>, q: string)
    requires NoDuplicates(h)
    ensures NoDuplicates(Without(h, q))
  {
    if h != [] {
      assert NoDuplicates(h[1..]) by {
        forall i, j | 0 <= i < j < |h[1..]| ensures h[1..][i] != h[1..][j] {
          assert h[1..][i] == h[i + 1] && h[1..][j] == h[j + 1];
        }
      }
      WithoutNoDuplicates(h[1..], q);
      if h[0] != q {
        var w := Without(h[1..], q);
        assert h[0] !in h[1..];
        assert h[0] !in w;
        assert NoDuplicates([h[0]] + w) by {
          forall i, j | 0 <= i < j < |[h[0]] + w| ensures ([h[0]] + w)[i] != ([h[0]] + w)[j] {
            assert ([h[0]] + w)[j] == w[j - 1];
            if i > 0 {
              assert ([h[0]] + w)[i] == w[i - 1];
            }
          }
        }
      }
    }
  }

  /** The entries after the head are older entries, in the order they already had. */
  lemma PushedKeepsOrder(h: seq<string>, q: string)
    ensures IsSubsequence(Pushed(h, q)[1..], h)
  {
    var w := Without(h, q);
    WithoutIsSubsequence(h, q);
    var p := Pushed(h, q);
    var n := |p| - 1;
    assert p[1..] == w[..n];
    TakeIsSubsequence(w, h, n);
  }

  /** A sixth distinct query pushes out the oldest entry. */
  lemma PushedDropsOldest(h: seq<string>, q: string)
    requires |h| == HistoryLimit && q !in h
    ensures Pushed(h, q) == [q] + h[..HistoryLimit - 1]
  {
  }

  /** Re-committing a query already in the history moves it to the front and loses nothing. */
  lemma PushedExistingMovesToFront(h: seq<string>, q: string)
    requires q in h && NoDuplicates(h) && |h| <= HistoryLimit
    ensures Pushed(h, q) == [q] + Without(h, q)
    ensures forall x :: x in Pushed(h, q) <==> x in h
  {
  }

  /** A new query pushed onto a history with room keeps every older entry behind it. */
  lemma PushedNewWithRoom(h: seq<string>, q: string)
    requires q !in h && |h| < HistoryLimit
    ensures Pushed(h, q) == [q] + h
  {
  }

  class SearchBar {
    var searchQuery: string
    var searchHistory: seq<string>

    /** The history is bounded and has no duplicates. */
    ghost predicate Valid()
      reads this
    {
      |searchHistory| <= HistoryLimit && NoDuplicates(searchHistory)
    }

    constructor ()
      ensures Valid() && searchQuery == "" && searchHistory == []
    {
      searchQuery := "";
      searchHistory := [];
    }

    /** The input field's change handler. */
    method HandleInput(text: string)
      modifies this`searchQuery
      ensures searchQuery == text
    {
      searchQuery := text;
    }

    /** Commits the query when it is not blank; `None` means the parent is not told. */
    method HandleSearch() returns (reported: Option<string>)
      requires Valid()
      modifies this`searchHistory
      ensures Valid()
      ensures Text.IsBlank(searchQuery) ==> reported == None && searchHistory == old(searchHistory)
      ensures !Text.IsBlank(searchQuery) ==>
                reported == Some(searchQuery) && searchHistory == Pushed(old(searchHistory), searchQuery)
    {
      if !Text.IsBlank(searchQuery) {
        PushedShape(searchHistory, searchQuery);
        PushedNoDuplicates(searchHistory, searchQuery);
        searchHistory := Pushed(searchHistory, searchQuery);
        reported := Some(searchQuery);
      } else {
        reported := None;
      }
    }

    /** Empties the text and reports the empty query; the history stays. */
    method HandleClear() returns (reported: string)
      modifies this`searchQuery
      ensures searchQuery == "" && reported == ""
    {
      searchQuery := "";
      reported := "";
    }

    /** Enter commits exactly as the search button does; any other key does nothing. */
    method HandleKeyPress(key: string) returns (reported: Option<string>)
      requires Valid()
      modifies this`searchHistory
      ensures Valid()
      ensures key != "Enter" ==> reported == None && searchHistory == old(searchHistory)
      ensures key == "Enter" && Text.IsBlank(searchQuery) ==> reported == None && searchHistory == old(searchHistory)
      ensures key == "Enter" && !Text.IsBlank(searchQuery) ==>
                reported == Some(searchQuery) && searchHistory == Pushed(old(searchHistory), searchQuery)
    {
      if key == "Enter" {
        reported := HandleSearch();
      } else {
        reported := None;
      }
    }

    /** Re-runs a remembered query without reordering the history. */
    method HandleHistoryClick(query: string) returns (reported: string)
      modifies this`searchQuery
      ensures searchQuery == query && reported == query
    {
      searchQuery := query;
      reported := query;
    }
  }
}
