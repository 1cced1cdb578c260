/** The dhikr clicker of the reminders screen: three phrases, 33 clicks
    each, after which the clicker is finished until reset. */
module RappelsScreen {
  const DhikrPhrases: seq<string> := ["SubhanAllah", "Allahu Akbar", "Alhamdulillah"]
  const MaxCount: int := 33

  /** Clicks on the current phrase, and which phrase is current. */
  datatype Clicker = Clicker(compteur: int, currentStep: int)

  /** The start state, which the reset button restores from any state. */
  const Reset: Clicker := Clicker(0, 0)

  predicate IsFinished(c: Clicker) {
    c.currentStep >= |DhikrPhrases|
  }

  /** The states the clicker can reach from its start or a reset. */
  predicate Valid(c: Clicker) {
    0 <= c.compteur < MaxCount && 0 <= c.currentStep <= |DhikrPhrases|
    && (IsFinished(c) ==> c.compteur == 0)
  }

  /** One press of the button: ignored once finished; otherwise one more
      click, and the 33rd click of a phrase moves on to the next one with
      the counter back at zero. */
  function Click(c: Clicker): (r: Clicker)
    ensures IsFinished(c) ==> r == c
    ensures !IsFinished(c) && c.compteur + 1 < MaxCount ==> r == Clicker(c.compteur + 1, c.currentStep)
    ensures !IsFinished(c) && c.compteur + 1 >= MaxCount ==> r == Clicker(0, c.currentStep + 1)
    ensures Valid(c) ==> Valid(r)
  {
    if IsFinished(c) then c
    else if c.compteur + 1 >= MaxCount then Clicker(0, c.currentStep + 1)
    else Clicker(c.compteur + 1, c.currentStep)
  }

  /** `n` presses in a row. */
  function Clicks(c: Clicker, n: nat): (r: Clicker)
    ensures Valid(c) ==> Valid(r)
  {
    if n == 0 then c else Click(Clicks(c, n - 1))
  }

  /** After k <= 99 presses from a reset, phrase k / 33 is current with
      k % 33 clicks on it. */
  lemma {:induction false} ClicksFromReset(k: nat)
    requires k <= 3 * MaxCount
    ensures Clicks(Reset, k) == Clicker(k % MaxCount, k / MaxCount)
  {
    if k > 0 {
      ClicksFromReset(k - 1);
      var j := k - 1;
      assert j == (j / MaxCount) * MaxCount + j % MaxCount;
      if j % MaxCount == MaxCount - 1 {
        assert k == (j / MaxCount + 1) * MaxCount;
      } else {
        assert k == (j / MaxCount) * MaxCount + (j % MaxCount + 1);
      }
    }
  }

  /** The clicker finishes on exactly the 99th press, and stays finished. */
  lemma {:induction false} FinishesAfter99(k: nat)
    ensures IsFinished(Clicks(Reset, k)) <==> k >= 3 * MaxCount
    ensures k >= 3 * MaxCount ==> Clicks(Reset, k) == Clicker(0, 3)
  {
    if k <= 3 * MaxCount {
      ClicksFromReset(k);
    } else {
      FinishesAfter99(k - 1);
    }
  }

  /** The line above the counter: the current phrase, or the closing line. */
  function PhraseLine(c: Clicker): (s: string)
    requires Valid(c)
    ensures !IsFinished(c) ==> s == DhikrPhrases[c.currentStep]
    ensures IsFinished(c) ==> s == "Dhikr terminé ✅"
    ensures s in DhikrPhrases || s == "Dhikr terminé ✅"
  {
    if !IsFinished(c) then DhikrPhrases[c.currentStep] else "Dhikr terminé ✅"
  }

  /** The click button is enabled, and reads "Cliquez", exactly while the
      clicker is not finished. */
  function ClickButton(c: Clicker): (b: (bool, string))
    ensures b.0 <==> !IsFinished(c)
    ensures b.1 == (if b.0 then "Cliquez" else "Terminé")
  {
    if !IsFinished(c) then (true, "Cliquez") else (false, "Terminé")
  }

  /** The button is enabled exactly when a press would change the clicker,
      and from a reset it reads "Cliquez" for the first 99 presses and
      "Terminé" from then on. */
  lemma ButtonFollowsClicks(c: Clicker, k: nat)
    ensures ClickButton(c).0 <==> Click(c) != c
    ensures ClickButton(Clicks(Reset, k)).1 == (if k < 3 * MaxCount then "Cliquez" else "Terminé")
  {
    FinishesAfter99(k);
  }

  /** The phrases come in order, 33 presses apart: SubhanAllah, Allahu
      Akbar, Alhamdulillah, then the closing line. */
  lemma PhraseOrder()
    ensures PhraseLine(Clicks(Reset, 0)) == "SubhanAllah"
    ensures PhraseLine(Clicks(Reset, 33)) == "Allahu Akbar"
    ensures PhraseLine(Clicks(Reset, 66)) == "Alhamdulillah"
    ensures PhraseLine(Clicks(Reset, 99)) == "Dhikr terminé ✅"
  {
    ClicksFromReset(0);
    ClicksFromReset(33);
    ClicksFromReset(66);
    ClicksFromReset(99);
  }
}
