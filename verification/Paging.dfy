/** Windowing a list with machine integers (internal/game/flights/paginate.go). */
module Paging {
  import opened Sequences

  const TWO_63: int := 0x8000_0000_0000_0000
  const MAX_INT: int := TWO_63 - 1

  /** Go's 64-bit wrap-around. */
  function Wrapped(x: int): (r: int)
    ensures -9_223_372_036_854_775_808 <= r <= 9_223_372_036_854_775_807
    ensures (r - x) % 18_446_744_073_709_551_616 == 0
    ensures -TWO_63 <= x <= MAX_INT ==> r == x
  {
    (x + TWO_63) % (2 * TWO_63) - TWO_63
  }

  function Min(a: int, b: int): int {
    if a < b then a else b
  }

  predicate MachineInt(x: int) {
    -TWO_63 <= x <= MAX_INT
  }

  /** None stands for a run-time panic. */
  function PageFrom<T>(items: seq<T>, start: int, pageLength: int): Option<seq<T>> {
    if start < 0 || start >= |items| then Some([])
    else
      var end := Min(Wrapped(start + pageLength), |items|);
      if end < start then None else Some(items[start..end])
  }

  /** `maxLength` is the longest slice of this element type that can be allocated; `items` is one.  An end
      before the start panics either in the allocation, whose length is negative or too large, or in
      slicing the items. */
  method Paginate<T>(items: seq<T>, pageNumber: int, pageLength: int, maxLength: int) returns (page: Option<seq<T>>)
    requires |items| <= maxLength <= MAX_INT && MachineInt(pageNumber) && MachineInt(pageLength)
    ensures var start := Wrapped((pageNumber - 1) * pageLength);
            && page == PageFrom(items, start, pageLength)
            && (page.None? <==> 0 <= start < |items| && (pageLength < 0 || start + pageLength > MAX_INT))
  {
    var start := Wrapped((pageNumber - 1) * pageLength);
    if start < 0 || start >= |items| {
      return Some([]);
    }
    var end := Wrapped(start + pageLength);
    if end > |items| {
      end := |items|;
    }
    var length := Wrapped(end - start);
    if length < 0 || length > maxLength {
      return None;
    }
    if end < start {
      return None;
    }
    return Some(items[start..end]);
  }

  /** Whenever the end overflows, the length asked of the allocator wraps back to the page length: the
      panic is over a length far beyond the list, not over a negative one. */
  lemma OverflowAsksForPageLength(start: int, pageLength: int)
    requires 0 <= start <= MAX_INT && MachineInt(pageLength) && start + pageLength > MAX_INT
    ensures Wrapped(Wrapped(start + pageLength) - start) == pageLength > MAX_INT - start
  {
    assert Wrapped(start + pageLength) == start + pageLength - 2 * TWO_63;
    assert Wrapped(pageLength - 2 * TWO_63) == pageLength;
  }

  /** The intended window: positions from (pageNumber - 1) * pageLength up to pageNumber * pageLength. */
  function Window<T>(items: seq<T>, pageNumber: nat, pageLength: nat): seq<T>
    requires pageNumber >= 1
  {
    SubWindow(items, (pageNumber - 1) * pageLength, pageLength)
  }

  function SubWindow<T>(items: seq<T>, from: nat, length: nat): seq<T> {
    items[Min(from, |items|)..Min(from + length, |items|)]
  }

  /** Paginate returns the intended window exactly when the start it computes falls outside the list, or
      the end of the window fits a machine integer.  Otherwise it panics or returns another page. */
  lemma PageIsWindowIff<T>(items: seq<T>, pageNumber: nat, pageLength: nat)
    requires |items| <= MAX_INT && 1 <= pageNumber <= MAX_INT && 1 <= pageLength <= MAX_INT
    ensures var start := Wrapped((pageNumber - 1) * pageLength);
            PageFrom(items, start, pageLength) == Some(Window(items, pageNumber, pageLength)) <==>
            !(0 <= start < |items|) || pageNumber * pageLength <= MAX_INT
  {
    assert pageNumber * pageLength == (pageNumber - 1) * pageLength + pageLength;
    SubWindowIff(items, (pageNumber - 1) * pageLength, pageLength);
  }

  lemma SubWindowIff<T>(items: seq<T>, from: nat, length: nat)
    requires |items| <= MAX_INT && 1 <= length <= MAX_INT
    ensures PageFrom(items, Wrapped(from), length) == Some(SubWindow(items, from, length)) <==>
            !(0 <= Wrapped(from) < |items|) || from + length <= MAX_INT
  {
    var start, page := Wrapped(from), SubWindow(items, from, length);
    if 0 <= start < |items| {
      if start + length > MAX_INT {
        assert Wrapped(start + length) == start + length - 2 * TWO_63;
        assert PageFrom(items, start, length).None?;
      } else if from > MAX_INT {
        assert PageFrom(items, start, length) == Some(items[start..Min(start + length, |items|)]);
        assert |items[start..Min(start + length, |items|)]| > 0 && page == [];
      } else {
        assert start == from;
      }
    } else {
      assert from >= |items| && page == [];
    }
  }

  /** Both failures are reachable with page numbers and lengths that are machine integers: page
      2^63 - 2 of length 2^63 - 1 panics, and page 2^62 + 1 of length 4 is the first page again. */
  lemma PaginateFails<T>(items: seq<T>)
    requires 4 <= |items| <= MAX_INT
    ensures PageFrom(items, Wrapped((MAX_INT - 1 - 1) * MAX_INT), MAX_INT).None?
    ensures PageFrom(items, Wrapped((TWO_63 / 2 + 1 - 1) * 4), 4) == Some(items[..4])
    ensures Window(items, TWO_63 / 2 + 1, 4) == []
  {
    assert (MAX_INT - 1 - 1) * MAX_INT == 3 + (TWO_63 / 2 - 2) * (2 * TWO_63);
    assert Wrapped((MAX_INT - 1 - 1) * MAX_INT) == 3;
    assert Wrapped(3 + MAX_INT) == 3 + MAX_INT - 2 * TWO_63;
    assert Wrapped((TWO_63 / 2 + 1 - 1) * 4) == 0;
  }

  // ----- All pages together

  /** The number of pages of length `pageLength` that a list of `n` items fills. */
  function PageCount(n: nat, pageLength: nat): nat
    requires pageLength >= 1
  {
    (n + pageLength - 1) / pageLength
  }

  /** The first `count` windows joined. */
  function Windows<T>(items: seq<T>, pageLength: nat, count: nat): seq<T> {
    if count == 0 then [] else Windows(items, pageLength, count - 1) + Window(items, count, pageLength)
  }

  lemma {:induction false} WindowsArePrefix<T>(items: seq<T>, pageLength: nat, count: nat)
    ensures Windows(items, pageLength, count) == items[..Min(count * pageLength, |items|)]
  {
    if count > 0 {
      WindowsArePrefix(items, pageLength, count - 1);
      var from := (count - 1) * pageLength;
      assert count * pageLength == from + pageLength;
      assert items[..Min(from, |items|)] + items[Min(from, |items|)..Min(from + pageLength, |items|)]
          == items[..Min(from + pageLength, |items|)];
    }
  }

  lemma PageCountCovers(n: nat, pageLength: nat)
    requires pageLength >= 1
    ensures n <= PageCount(n, pageLength) * pageLength < n + pageLength
  {
    var q, r := (n + pageLength - 1) / pageLength, (n + pageLength - 1) % pageLength;
    assert n + pageLength - 1 == q * pageLength + r;
  }

  lemma ProductGrows(a: nat, b: nat, c: nat)
    requires a <= b
    ensures a * c <= b * c
  {
  }

  /** Walking the pages 1, 2, ... up to the last one that has items gives every item once, in order, and
      every later page is empty -- as long as page number times page length fits a machine integer. */
  lemma PagesJoinToList<T>(items: seq<T>, pageLength: nat, pageNumber: nat)
    requires |items| <= MAX_INT && 1 <= pageLength <= MAX_INT
    requires 1 <= pageNumber && pageNumber * pageLength <= MAX_INT
    ensures PageFrom(items, Wrapped((pageNumber - 1) * pageLength), pageLength) == Some(Window(items, pageNumber, pageLength))
    ensures Windows(items, pageLength, PageCount(|items|, pageLength)) == items
    ensures pageNumber > PageCount(|items|, pageLength) ==> Window(items, pageNumber, pageLength) == []
  {
    var last := PageCount(|items|, pageLength);
    ProductGrows(1, pageLength, pageNumber);
    PageIsWindowIff(items, pageNumber, pageLength);
    PageCountCovers(|items|, pageLength);
    WindowsArePrefix(items, pageLength, last);
    if pageNumber > last {
      ProductGrows(last, pageNumber - 1, pageLength);
    }
  }
}
