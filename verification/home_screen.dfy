/** The home carousel: four menu entries, previous and next arrows that
    stop at the ends, and a centre that opens the shown entry's route. */
module HomeScreen {

  datatype MenuItem = MenuItem(title: string, route: string)

  const MenuItems: seq<MenuItem> := [
    MenuItem("Lecture du Coran", "quran"),
    MenuItem("Horaires de prière", "prayer_times"),
    MenuItem("Rappels & Douaas", "rappels_slider"),
    MenuItem("Tajwid", "tajwid")
  ]

  const LastIndex: int := |MenuItems| - 1

  /** The index a carousel can show. */
  predicate InRange(i: int) {
    0 <= i <= LastIndex
  }

  /** The previous arrow is enabled when not on the first entry. */
  predicate PrevEnabled(i: int) {
    i > 0
  }

  /** The next arrow is enabled when not on the last entry. */
  predicate NextEnabled(i: int) {
    i < LastIndex
  }

  function Prev(i: int): (r: int)
    ensures PrevEnabled(i) ==> r == i - 1
    ensures !PrevEnabled(i) ==> r == i
    ensures InRange(i) ==> InRange(r)
  {
    if i > 0 then i - 1 else i
  }

  function Next(i: int): (r: int)
    ensures NextEnabled(i) ==> r == i + 1
    ensures !NextEnabled(i) ==> r == i
    ensures InRange(i) ==> InRange(r)
  {
    if i < LastIndex then i + 1 else i
  }

  /** Each arrow undoes the other wherever it was enabled. */
  lemma ArrowsUndoEachOther(i: int)
    requires InRange(i)
    ensures NextEnabled(i) ==> Prev(Next(i)) == i
    ensures PrevEnabled(i) ==> Next(Prev(i)) == i
  {
  }

  datatype Arrow = Back | Forward

  /** The index after a sequence of arrow presses. */
  function Moves(i: int, ms: seq<Arrow>): (r: int)
    ensures InRange(i) ==> InRange(r)
    decreases |ms|
  {
    if |ms| == 0 then i
    else Moves(if ms[0] == Back then Prev(i) else Next(i), ms[1..])
  }

  /** Pressing "next" enough times from the start reaches every entry and
      then stays on the last one. */
  lemma ForwardPresses(n: nat)
    ensures Moves(0, seq(n, _ => Forward)) == if n <= LastIndex then n else LastIndex
  {
    ForwardFrom(0, n);
  }

  lemma {:induction false} ForwardFrom(i: int, n: nat)
    requires InRange(i)
    ensures Moves(i, seq(n, _ => Forward)) == if i + n <= LastIndex then i + n else LastIndex
    decreases n
  {
    if n > 0 {
      var ms := seq(n, _ => Forward);
      assert ms[0] == Forward;
      assert ms[1..] == seq(n - 1, _ => Forward);
      ForwardFrom(Next(i), n - 1);
    }
  }

  /** Clicking the centre navigates to the shown entry's route. */
  function CenterClick(i: int): (route: string)
    requires InRange(i)
    ensures route == MenuItems[i].route
    ensures route in ["quran", "prayer_times", "rappels_slider", "tajwid"]
  {
    MenuItems[i].route
  }

  /** The carousel starts on the Quran entry. */
  const InitialIndex: int := 0

  /** Whatever the presses, the centre always opens one of the four routes. */
  lemma AnyPressesOpenARoute(ms: seq<Arrow>)
    ensures InRange(Moves(InitialIndex, ms))
    ensures CenterClick(Moves(InitialIndex, ms)) in ["quran", "prayer_times", "rappels_slider", "tajwid"]
  {
  }
}
