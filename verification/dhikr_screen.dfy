/** The dhikr counter screen: pick one of three phrases, count presses,
    and show the goal line once the phrase's target is reached. */
module DhikrScreen {

  /** A phrase with its Arabic text and its target count. */
  datatype Dhikr = Dhikr(name: string, arabic: string, count: int)

  const DhikrList: seq<Dhikr> := [
    Dhikr("Subhanallah", "سُبْحَانَ اللَّهِ", 33),
    Dhikr("Alhamdulillah", "الْحَمْدُ لِلَّهِ", 33),
    Dhikr("Allahu Akbar", "اللَّهُ أَكْبَرُ", 33)
  ]

  /** The selected phrase and the presses counted for it. */
  datatype DhikrState = DhikrState(selectedDhikr: Dhikr, currentCount: int)

  /** What the screen can reach: a listed phrase and a count that is not
      negative. */
  predicate Valid(s: DhikrState) {
    s.selectedDhikr in DhikrList && s.currentCount >= 0
  }

  /** The first phrase, nothing counted. */
  function Initial(): (s: DhikrState)
    ensures Valid(s) && s.currentCount == 0 && s.selectedDhikr.name == "Subhanallah"
  {
    DhikrState(DhikrList[0], 0)
  }

  /** Tapping a chip selects its phrase and restarts the count. */
  function Select(s: DhikrState, d: Dhikr): (r: DhikrState)
    requires d in DhikrList
    ensures Valid(r) && r.selectedDhikr == d && r.currentCount == 0
  {
    DhikrState(d, 0)
  }

  /** The chip of `d` is shown selected exactly when it is the selected
      phrase; the phrases are distinct, so exactly one chip is. */
  lemma OneChipSelected(s: DhikrState)
    requires Valid(s)
    ensures exists i :: 0 <= i < |DhikrList| && DhikrList[i] == s.selectedDhikr
    ensures forall i, j :: 0 <= i < j < |DhikrList| ==> DhikrList[i] != DhikrList[j]
  {
  }

  /** The "+1" button. */
  function Increment(s: DhikrState): (r: DhikrState)
    ensures r.currentCount == s.currentCount + 1 && r.selectedDhikr == s.selectedDhikr
    ensures Valid(s) ==> Valid(r)
  {
    s.(currentCount := s.currentCount + 1)
  }

  /** The "Reset" button keeps the phrase. */
  function ResetCount(s: DhikrState): (r: DhikrState)
    ensures r.currentCount == 0 && r.selectedDhikr == s.selectedDhikr
    ensures Valid(s) ==> Valid(r)
  {
    s.(currentCount := 0)
  }

  /** The goal line shows once the count reaches the phrase's target. */
  predicate GoalReached(s: DhikrState) {
    s.currentCount >= s.selectedDhikr.count
  }

  /** `n` presses of "+1". */
  function Presses(s: DhikrState, n: nat): (r: DhikrState)
    ensures Valid(s) ==> Valid(r)
  {
    if n == 0 then s else Increment(Presses(s, n - 1))
  }

  lemma {:induction false} PressesCount(s: DhikrState, n: nat)
    ensures Presses(s, n) == s.(currentCount := s.currentCount + n)
  {
    if n > 0 {
      PressesCount(s, n - 1);
    }
  }

  /** After "Reset" the goal line is gone and takes the phrase's full
      target of presses to come back, whatever had been counted before. */
  lemma {:induction false} ResetRestartsTheGoal(s: DhikrState, n: nat)
    requires Valid(s)
    ensures !GoalReached(ResetCount(s))
    ensures GoalReached(Presses(ResetCount(s), n)) <==> n >= 33
    ensures Presses(ResetCount(s), n).selectedDhikr == s.selectedDhikr
  {
    PressesCount(ResetCount(s), n);
  }

  /** After selecting any phrase, the goal line appears on the 33rd press
      and not before, and it stays. */
  lemma GoalAfter33(d: Dhikr, n: nat)
    requires d in DhikrList
    ensures GoalReached(Presses(Select(Initial(), d), n)) <==> n >= 33
  {
    PressesCount(Select(Initial(), d), n);
  }
}
