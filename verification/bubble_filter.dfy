/** The category bubbles above the project grid. The component only shows
    a selection held by its parent and reports clicks; it filters nothing. */
module BubbleFilter {
  import opened Text
  import opened Lists

  /** `formatCategoryName`. */
  function Label(category: string): (r: string)
    ensures category == "all" ==> r == "All"
    ensures category != "all" ==> r == category
  {
    if category == "all" then "All" else category
  }

  /** One rendered bubble. */
  datatype Bubble = Bubble(category: string, name: string, selected: bool)

  /** The bubbles: every category except 'all', in order, selected exactly
      when in the selection. */
  function Bubbles(categories: seq<string>, selected: seq<string>): (r: seq<Bubble>)
    ensures forall i :: 0 <= i < |r| ==> r[i].category != "all" && r[i].name == r[i].category
    ensures forall i :: 0 <= i < |r| ==> (r[i].selected <==> r[i].category in selected)
    ensures forall i :: 0 <= i < |r| ==> r[i].category in categories
    ensures forall c :: c in categories && c != "all" ==> exists i :: 0 <= i < |r| && r[i].category == c
  {
    var shown := Filter(categories, (c: string) => c != "all");
    var r := seq(|shown|, i requires 0 <= i < |shown| => Bubble(shown[i], Label(shown[i]), shown[i] in selected));
    assert forall c :: c in categories && c != "all" ==> c in shown && r[IndexOf(shown, c)].category == c;
    r
  }

  /** The position of a value known to occur. */
  function IndexOf(xs: seq<string>, x: string): (k: nat)
    requires x in xs
    ensures k < |xs| && xs[k] == x
  {
    if xs[0] == x then 0 else 1 + IndexOf(xs[1..], x)
  }

  /** The All button is highlighted exactly when nothing is selected. */
  predicate AllHighlighted(selected: seq<string>) { |selected| == 0 }

  /** The labels of the selection, in selection order. */
  function Labels(selected: seq<string>): (r: seq<string>)
    ensures |r| == |selected|
  {
    seq(|selected|, i requires 0 <= i < |selected| => Label(selected[i]))
  }

  /** The "Filtering by" line: shown only for a non-empty selection. */
  function Summary(selected: seq<string>): (r: string)
    requires |selected| > 0
    ensures StartsWith(r, Label(selected[0]))
    ensures |r| + 2 == PieceStart(Labels(selected), ", ", |selected|)
  {
    JoinPiece(Labels(selected), ", ", 0);
    JoinLength(Labels(selected), ", ");
    Join(Labels(selected), ", ")
  }

  /** Clicks the component can receive, and what it reports upwards. */
  datatype Click = AllButton | BubbleBody(category: string) | BubbleCross(category: string) | ClearAllLink
  datatype Report = ClearAll | Toggle(category: string)

  /** Both the All button and "Clear all" clear; a bubble and its cross
      (whose click does not propagate) toggle once. */
  function Dispatch(click: Click): (r: Report)
    ensures r == ClearAll <==> click.AllButton? || click.ClearAllLink?
    ensures r.Toggle? ==> r.category == click.category
  {
    match click
    case AllButton => ClearAll
    case ClearAllLink => ClearAll
    case BubbleBody(c) => Toggle(c)
    case BubbleCross(c) => Toggle(c)
  }

  // ---------------------------------------------------------------------
  // Lemmas

  /** The bubbles keep the category order: their categories are the
      categories with 'all' removed. */
  lemma BubbleOrder(categories: seq<string>, selected: seq<string>)
    ensures var r := Bubbles(categories, selected);
      IsSubsequence(seq(|r|, i requires 0 <= i < |r| => r[i].category), categories)
  {
    var shown := Filter(categories, (c: string) => c != "all");
    FilterIsSubsequence(categories, (c: string) => c != "all");
    var r := Bubbles(categories, selected);
    assert seq(|r|, i requires 0 <= i < |r| => r[i].category) == shown;
  }

  /** The summary is the selected labels in selection order, each one
      followed by ", " except the last, and nothing else: the pieces and
      separators fill the whole line. */
  lemma {:induction false} SummaryListsLabels(selected: seq<string>, i: nat)
    requires i < |selected|
    ensures var s := Summary(selected);
      var at := PieceStart(Labels(selected), ", ", i);
      var end := at + |Label(selected[i])|;
      && end <= |s| && s[at..end] == Label(selected[i])
      && (i + 1 < |selected| ==> end + 2 <= |s| && s[end..end + 2] == ", ")
      && (i + 1 == |selected| ==> end == |s|)
  {
    var xs := Labels(selected);
    assert xs[i] == Label(selected[i]);
    JoinLayout(xs, ", ", i);
  }

  /** While the All button is highlighted no bubble is, and as soon as a
      bubble is selected the All button is not. */
  lemma AllExcludesBubbles(categories: seq<string>, selected: seq<string>)
    ensures var r := Bubbles(categories, selected);
      && (AllHighlighted(selected) ==> forall i :: 0 <= i < |r| ==> !r[i].selected)
      && ((exists i :: 0 <= i < |r| && r[i].selected) ==> !AllHighlighted(selected))
  {
  }

  /** Clicks on what is rendered: every bubble, by its body or its cross,
      reports a toggle of a real (non-'all') category of the list, and the
      All button and "Clear all" report the same thing. */
  lemma BubbleClicksToggle(categories: seq<string>, selected: seq<string>, i: nat)
    requires i < |Bubbles(categories, selected)|
    ensures var b := Bubbles(categories, selected)[i];
      && Dispatch(BubbleBody(b.category)) == Dispatch(BubbleCross(b.category)) == Toggle(b.category)
      && b.category != "all" && b.category in categories
      && Dispatch(AllButton) == Dispatch(ClearAllLink) == ClearAll
  {
  }

  /** A one-category selection reads as that category's label. */
  lemma SummaryOfOne(c: string)
    ensures Summary([c]) == Label(c)
  {
  }
}
