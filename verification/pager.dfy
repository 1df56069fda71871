/**
 * The dataframe pager of bikeshare.py:103-159: pages of five rows, moved
 * forward with Enter, back with 'b', left with 'q'. Printing a page is
 * modelled by the index of its first row.
 */
module Pager {
  import opened Wrappers
  import opened Text
  import opened Prompts

  const PageSize: nat := 5

  datatype Key = Enter | Back | Quit

  /** The pager's answer check: the first character exactly, without lower-casing. */
  function KeyOf(s: string): (k: Option<Key>)
    ensures k == Some(Enter) <==> s == []
    ensures k == Some(Back) <==> |s| > 0 && s[0] == 'b'
    ensures k == Some(Quit) <==> |s| > 0 && s[0] == 'q'
  {
    var c := Head(s, 1);
    if c == "" then Some(Enter)
    else if c == "b" then Some(Back)
    else if c == "q" then Some(Quit)
    else None
  }

  /** The index `get_pager_input` returns for a key: one page on, one page back, or None to stop. */
  function Step(index: int, key: Key): (r: Option<int>)
    ensures r.None? <==> key == Quit
    ensures key == Enter ==> r == Some(index + PageSize)
    ensures key == Back ==> r == Some(index - PageSize)
  {
    match key
    case Enter => Some(index + PageSize)
    case Back => Some(index - PageSize)
    case Quit => None
  }

  /** `get_pager_input(index)`: asks until a key is recognised. */
  method GetPagerInput(inputs: seq<string>, pos: nat, index: int) returns (r: Read<Option<int>>)
    requires pos <= |inputs|
    ensures var k := FirstValid(inputs, pos, KeyOf);
            (r.Exhausted? <==> k.Exhausted?) &&
            (r.Got? ==> r.next == k.next && r.value == Step(index, k.value))
  {
    var k := ReadUntilValid(inputs, pos, KeyOf);
    match k
    case Exhausted => r := Exhausted;
    case Got(key, next) => r := Got(Step(index, key), next);
  }

  /** How a viewing session ended: the index passed the end, the user quit, or input ran out. */
  datatype Stop = EndOfFrame | Exited | InputEnded

  /** The first rows of the pages shown, in order, how viewing stopped, and the next unread input. */
  datatype Trace = Trace(pages: seq<int>, stop: Stop, next: nat)

  function Prepend(shown: seq<int>, t: Trace): (r: Trace)
  {
    Trace(shown + t.pages, t.stop, t.next)
  }

  /**
   * `print_bikeshare_df_page(df, index)` over a frame of `total` rows: a
   * negative index becomes 0; a page is printed only while the index is
   * strictly below `total - PageSize`, otherwise the pager ends.
   */
  function Paging(total: nat, inputs: seq<string>, pos: nat, index: int): (t: Trace)
    requires pos <= |inputs|
    ensures pos <= t.next <= |inputs|
    ensures t.stop != EndOfFrame ==> |t.pages| > 0
    decreases |inputs| - pos
  {
    var i := if index < 0 then 0 else index;
    if i < total - PageSize then
      match FirstValid(inputs, pos, KeyOf)
      case Exhausted => Trace([i], InputEnded, |inputs|)
      case Got(key, next) =>
        match Step(i, key)
        case None => Trace([i], Exited, next)
        case Some(newIndex) => Prepend([i], Paging(total, inputs, next, newIndex))
    else Trace([], EndOfFrame, pos)
  }

  /** The recursion of `print_bikeshare_df_page` unrolled into a loop over the pages shown. */
  method PrintBikeshareDfPage(total: nat, inputs: seq<string>, pos: nat, index: int) returns (t: Trace)
    requires pos <= |inputs|
    ensures t == Paging(total, inputs, pos, index)
  {
    var shown: seq<int> := [];
    var p, idx := pos, index;
    while true
      invariant pos <= p <= |inputs|
      invariant Paging(total, inputs, pos, index) == Prepend(shown, Paging(total, inputs, p, idx))
      decreases |inputs| - p
    {
      var i := if idx < 0 then 0 else idx;
      PagingUnfold(total, inputs, p, idx);
      if i >= total - PageSize {
        return Trace(shown, EndOfFrame, p);
      }
      var r := GetPagerInput(inputs, p, i);
      match r
      case Exhausted =>
        return Trace(shown + [i], InputEnded, |inputs|);
      case Got(None, next) =>
        return Trace(shown + [i], Exited, next);
      case Got(Some(newIndex), next) =>
        ghost var rest := Paging(total, inputs, next, newIndex);
        assert shown + ([i] + rest.pages) == (shown + [i]) + rest.pages;
        shown, p, idx := shown + [i], next, newIndex;
    }
  }

  /** One call of `print_bikeshare_df_page`, case by case. */
  lemma PagingUnfold(total: nat, inputs: seq<string>, pos: nat, index: int)
    requires pos <= |inputs|
    ensures var i := if index < 0 then 0 else index;
            var k := FirstValid(inputs, pos, KeyOf);
            (i >= total - PageSize ==> Paging(total, inputs, pos, index) == Trace([], EndOfFrame, pos)) &&
            (i < total - PageSize && k.Exhausted? ==> Paging(total, inputs, pos, index) == Trace([i], InputEnded, |inputs|)) &&
            (i < total - PageSize && k.Got? && k.value == Quit ==> Paging(total, inputs, pos, index) == Trace([i], Exited, k.next)) &&
            (i < total - PageSize && k.Got? && k.value != Quit ==>
               Paging(total, inputs, pos, index) == Prepend([i], Paging(total, inputs, k.next, Step(i, k.value).value)))
  {
  }

  /**
   * Started on a multiple of the page size, every page shown starts on a
   * multiple of the page size and holds five whole rows, and none reaches
   * the last row: a page is printed only when `index + PageSize < total`.
   */
  lemma {:induction false} PagesStayInside(total: nat, inputs: seq<string>, pos: nat, index: int)
    requires pos <= |inputs| && index % PageSize == 0
    ensures var pages := Paging(total, inputs, pos, index).pages;
            forall k :: 0 <= k < |pages| ==> 0 <= pages[k] && pages[k] % PageSize == 0 && pages[k] + PageSize < total
    decreases |inputs| - pos
  {
    var i := if index < 0 then 0 else index;
    var k := FirstValid(inputs, pos, KeyOf);
    PagingUnfold(total, inputs, pos, index);
    if i < total - PageSize && k.Got? && k.value != Quit {
      var newIndex := Step(i, k.value).value;
      assert newIndex % PageSize == 0;
      PagesStayInside(total, inputs, k.next, newIndex);
      var rest := Paging(total, inputs, k.next, newIndex).pages;
      var pages := Paging(total, inputs, pos, index).pages;
      assert pages == [i] + rest;
      forall j | 0 <= j < |pages|
        ensures 0 <= pages[j] && pages[j] % PageSize == 0 && pages[j] + PageSize < total
      {
        if j > 0 {
          assert pages[j] == rest[j - 1];
        }
      }
    }
  }

  /**
   * Each call prints a page exactly when the clamped index is below
   * `total - PageSize`; otherwise nothing is printed and the pager ends.
   */
  lemma EndOfFrameExactly(total: nat, inputs: seq<string>, pos: nat, index: int)
    requires pos <= |inputs|
    ensures var i := if index < 0 then 0 else index;
            var t := Paging(total, inputs, pos, index);
            (t.pages == [] <==> i >= total - PageSize) &&
            (t.pages != [] ==> t.pages[0] == i) &&
            (i >= total - PageSize ==> t.stop == EndOfFrame)
  {
  }

  /** A frame of at most five rows is never paged: the pager ends straight away. */
  lemma ShortFrameShowsNothing(total: nat, inputs: seq<string>, pos: nat)
    requires pos <= |inputs| && total <= PageSize
    ensures Paging(total, inputs, pos, 0) == Trace([], EndOfFrame, pos)
  {
  }

  /** 'b' on the first page shows the first page again instead of leaving it. */
  lemma BackOnFirstPage(total: nat, inputs: seq<string>, pos: nat)
    requires pos < |inputs| && total > PageSize && KeyOf(inputs[pos]) == Some(Back)
    ensures var pages := Paging(total, inputs, pos, 0).pages;
            |pages| >= 2 && pages[0] == 0 && pages[1] == 0
  {
    assert FirstValid(inputs, pos, KeyOf) == Got(Back, pos + 1);
  }

  /** Ten rows and Enter: rows 0-4 are printed, then the pager ends without printing rows 5-9. */
  lemma TenRowsShowOnePage()
    ensures Paging(10, ["", "q"], 0, 0) == Trace([0], EndOfFrame, 1)
  {
    assert FirstValid(["", "q"], 0, KeyOf) == Got(Enter, 1);
  }
}
