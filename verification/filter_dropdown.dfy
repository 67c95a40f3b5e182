/** The single-choice skills dropdown: a toggle button showing the current
    choice, a menu of categories, and a backdrop that closes the menu. */
module FilterDropdown {
  import opened Common

  /** `formatCategoryName`. */
  function Label(category: string): (r: string)
    ensures category == "all" ==> r == "All Projects"
    ensures category != "all" ==> r == category
  {
    if category == "all" then "All Projects" else category
  }

  /** The menu starts closed. */
  const InitiallyOpen: bool := false

  /** User actions. The backdrop and the entries exist only while the menu
      is open. */
  datatype Event = ToggleButton | Backdrop | Choose(category: string)

  datatype Step = Step(isOpen: bool, reported: Option<string>)

  function Handle(isOpen: bool, ev: Event): (r: Step)
    ensures ev.ToggleButton? ==> r == Step(!isOpen, None)
    ensures !ev.ToggleButton? ==> !r.isOpen
    ensures r.reported.Some? <==> isOpen && ev.Choose?
    ensures r.reported.Some? ==> r.reported.value == ev.category
  {
    match ev
    case ToggleButton => Step(!isOpen, None)
    case Backdrop => Step(false, None)
    case Choose(c) => if isOpen then Step(false, Some(c)) else Step(false, None)
  }

  /** Which menu entries are highlighted. */
  function Highlighted(categories: seq<string>, selected: string): (r: seq<bool>)
    ensures |r| == |categories|
    ensures forall i :: 0 <= i < |categories| ==> (r[i] <==> categories[i] == selected)
  {
    seq(|categories|, i requires 0 <= i < |categories| => categories[i] == selected)
  }

  // ---------------------------------------------------------------------
  // Lemmas

  /** Opening and choosing reports exactly the chosen entry and ends closed;
      opening and clicking the backdrop reports nothing and ends closed. */
  lemma OpenThenAct(c: string)
    ensures var shown := Handle(InitiallyOpen, ToggleButton).isOpen;
      && shown
      && Handle(shown, Choose(c)) == Step(false, Some(c))
      && Handle(shown, Backdrop) == Step(false, None)
  {
  }

  /** Two presses of the toggle button restore the menu. */
  lemma ToggleTwice(isOpen: bool)
    ensures Handle(Handle(isOpen, ToggleButton).isOpen, ToggleButton).isOpen == isOpen
  {
  }

  /** With distinct categories exactly one entry is highlighted when the
      selection is among them, none otherwise. */
  lemma HighlightUnique(categories: seq<string>, selected: string)
    requires forall i, j :: 0 <= i < |categories| && 0 <= j < |categories| && categories[i] == categories[j] ==> i == j
    ensures var h := Highlighted(categories, selected);
      && (forall i, j :: 0 <= i < |h| && 0 <= j < |h| && h[i] && h[j] ==> i == j)
      && (selected in categories <==> exists i :: 0 <= i < |h| && h[i])
  {
    var h := Highlighted(categories, selected);
    if selected in categories {
      var k :| 0 <= k < |categories| && categories[k] == selected;
      assert h[k];
    }
  }
}
