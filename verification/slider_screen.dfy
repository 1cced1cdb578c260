/** The reminders slider: three pages, horizontal drags past a 50-pixel
    threshold turn the page within bounds, and the bottom bar jumps to a
    page and highlights the current one. */
module SliderScreen {
  import opened Results

  /** The pages, by index. */
  datatype Page = DhikrPage | DouasPage | VersetsPage

  /** The page the slider opens on (Douas). */
  const InitialPage: int := 1

  predicate InRange(p: int) {
    0 <= p <= 2
  }

  /** The content shown for a page index; any index outside 0..2 shows
      nothing. */
  function PageAt(p: int): (r: Option<Page>)
    ensures r.Some? <==> InRange(p)
    ensures p == 0 ==> r == Some(DhikrPage)
    ensures p == 1 ==> r == Some(DouasPage)
    ensures p == 2 ==> r == Some(VersetsPage)
  {
    if p == 0 then Some(DhikrPage) else if p == 1 then Some(DouasPage)
    else if p == 2 then Some(VersetsPage) else None
  }

  /** One horizontal drag event: a drag left by more than 50 goes to the
      next page unless on the last; a drag right by more than 50 goes to
      the previous page unless on the first; anything else keeps the page. */
  function Drag(p: int, dragAmount: real): (r: int)
    ensures dragAmount < -50.0 && p < 2 ==> r == p + 1
    ensures dragAmount > 50.0 && p > 0 ==> r == p - 1
    ensures -50.0 <= dragAmount <= 50.0 ==> r == p
    ensures InRange(p) ==> InRange(r)
    ensures r == p || r == p + 1 || r == p - 1
  {
    if dragAmount < -50.0 && p < 2 then p + 1
    else if dragAmount > 50.0 && p > 0 then p - 1
    else p
  }

  /** Events on the slider. */
  datatype Event = DragBy(amount: real) | IconClick(index: int)

  /** The bottom bar offers the icons 0, 1 (the raised centre) and 2. */
  predicate ValidEvent(e: Event) {
    e.IconClick? ==> InRange(e.index)
  }

  function Step(p: int, e: Event): (r: int)
    ensures e.IconClick? ==> r == e.index
    ensures e.DragBy? ==> r == Drag(p, e.amount)
    ensures InRange(p) && ValidEvent(e) ==> InRange(r)
  {
    match e
    case DragBy(a) => Drag(p, a)
    case IconClick(i) => i
  }

  function Run(p: int, es: seq<Event>): (r: int)
    requires forall i :: 0 <= i < |es| ==> ValidEvent(es[i])
    ensures InRange(p) ==> InRange(r)
    decreases |es|
  {
    if |es| == 0 then p else Run(Step(p, es[0]), es[1..])
  }

  /** Whatever the user does, the slider always shows one of its pages. */
  lemma AlwaysOnAPage(es: seq<Event>)
    requires forall i :: 0 <= i < |es| ==> ValidEvent(es[i])
    ensures PageAt(Run(InitialPage, es)).Some?
  {
  }

  /** Icon `i` of the bottom bar is highlighted exactly when its page is
      shown, so exactly one icon is. */
  function Highlighted(p: int, i: int): bool {
    p == i
  }

  lemma OneIconHighlighted(p: int)
    requires InRange(p)
    ensures exists i :: InRange(i) && Highlighted(p, i)
    ensures forall i, j :: InRange(i) && InRange(j) && Highlighted(p, i) && Highlighted(p, j) ==> i == j
  {
    assert Highlighted(p, p);
  }

  /** Two left swipes from the opening page reach the last page and a
      third changes nothing. */
  lemma SwipesStopAtTheEnd()
    ensures Run(InitialPage, [DragBy(-60.0)]) == 2
    ensures Run(InitialPage, [DragBy(-60.0), DragBy(-60.0)]) == 2
    ensures Run(InitialPage, [DragBy(60.0), DragBy(60.0)]) == 0
  {
  }
}
