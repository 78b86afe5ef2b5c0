/**
 * The keyword table and the dispatcher. The table is ordered, and the order is
 * the tie-break: a transcript selects the action of the first entry, in
 * declaration order, whose trigger phrase occurs anywhere in it.
 */
module Keywords {
  import opened Wrappers
  import opened Actions

  datatype Entry = Entry(phrase: string, action: LedAction)

  /** The trigger phrases and their commands, in the order they are tried. */
  const WordedActions: seq<Entry> := [
    Entry("свет", Power(true)),
    Entry("тьма", Power(false)),
    Entry("белый", Color(0, 0, 0)),
    Entry("фиолетовый", Color(255, 0, 255)),
    Entry("пурпурный", Color(128, 0, 128)),
    Entry("красный", Color(255, 0, 0)),
    Entry("зелёный", Color(0, 255, 0)),
    Entry("голубой", Color(205, 92, 92)),
    Entry("синий", Color(0, 0, 255))
  ]

  /** `text.contains(pat)`: pat occurs in text at some position. */
  predicate Contains(text: string, pat: string)
  {
    exists i :: 0 <= i <= |text| - |pat| && pat <= text[i..]
  }

  /** Entry k is the first entry of the table whose phrase occurs in text. */
  ghost predicate FirstMatchAt(table: seq<Entry>, text: string, k: int)
  {
    0 <= k < |table| && Contains(text, table[k].phrase) &&
    forall j :: 0 <= j < k ==> !Contains(text, table[j].phrase)
  }

  /** The index of the first entry whose phrase occurs in text, if any does. */
  function FirstMatch(table: seq<Entry>, text: string): (r: Option<nat>)
    ensures r.Some? ==> FirstMatchAt(table, text, r.value)
    ensures r.None? <==> forall j :: 0 <= j < |table| ==> !Contains(text, table[j].phrase)
    decreases |table|
  {
    if table == [] then None
    else if Contains(text, table[0].phrase) then Some(0)
    else match FirstMatch(table[1..], text)
      case None => None
      case Some(k) => Some(k + 1)
  }

  /** The action the transcript triggers: that of its first matching entry. */
  function Dispatch(table: seq<Entry>, text: string): Option<LedAction>
  {
    match FirstMatch(table, text)
    case None => None
    case Some(k) => Some(table[k].action)
  }

  /**
   * The scan of the table in the main loop: entries whose phrase is absent are
   * skipped, and the scan stops at the first one that is present.
   */
  method FindAction(table: seq<Entry>, text: string) returns (found: Option<LedAction>)
    ensures found == Dispatch(table, text)
  {
    found := None;
    var i := 0;
    while i < |table|
      invariant 0 <= i <= |table|
      invariant found == None
      invariant forall j :: 0 <= j < i ==> !Contains(text, table[j].phrase)
    {
      if !Contains(text, table[i].phrase) {
        i := i + 1;
        continue;
      }
      found := Some(table[i].action);
      break;
    }
  }

  // ---------------------------------------------------------------------------
  // What dispatch promises.

  /** The first matching entry in table order decides, wherever the other phrases occur. */
  lemma DispatchFirstInTableOrder(table: seq<Entry>, text: string, k: int)
    requires FirstMatchAt(table, text, k)
    ensures Dispatch(table, text) == Some(table[k].action)
  {
  }

  /** A transcript triggers an action exactly when one of the phrases occurs in it. */
  lemma DispatchNoneIffNoPhrase(table: seq<Entry>, text: string)
    ensures Dispatch(table, text) == None <==> forall j :: 0 <= j < |table| ==> !Contains(text, table[j].phrase)
  {
  }

  /** Every action dispatched comes from an entry whose phrase occurs and that no earlier entry preempts. */
  lemma DispatchFromFirstMatch(table: seq<Entry>, text: string, a: LedAction)
    requires Dispatch(table, text) == Some(a)
    ensures exists k :: FirstMatchAt(table, text, k) && table[k].action == a
  {
    assert FirstMatchAt(table, text, FirstMatch(table, text).value);
  }

  /** When exactly one phrase occurs, its action is dispatched. */
  lemma DispatchSinglePhrase(table: seq<Entry>, text: string, k: int)
    requires 0 <= k < |table| && Contains(text, table[k].phrase)
    requires forall j :: 0 <= j < |table| && j != k ==> !Contains(text, table[j].phrase)
    ensures Dispatch(table, text) == Some(table[k].action)
  {
  }

  /**
   * Entries after the first match are never consulted: appending entries to a
   * table changes nothing for a transcript the table already matches, and
   * otherwise defers to the appended entries.
   */
  lemma DispatchAppend(table: seq<Entry>, more: seq<Entry>, text: string)
    ensures Dispatch(table, text).Some? ==> Dispatch(table + more, text) == Dispatch(table, text)
    ensures Dispatch(table, text).None? ==> Dispatch(table + more, text) == Dispatch(more, text)
  {
    var all := table + more;
    match FirstMatch(table, text)
    case Some(k) =>
      assert FirstMatchAt(all, text, k) by {
        assert forall j :: 0 <= j <= k ==> all[j] == table[j];
      }
      DispatchFirstInTableOrder(all, text, k);
    case None =>
      match FirstMatch(more, text)
      case Some(k) =>
        assert FirstMatchAt(all, text, |table| + k) by {
          assert forall j :: 0 <= j < |table| ==> all[j] == table[j];
          assert forall j :: 0 <= j <= k ==> all[|table| + j] == more[j];
        }
        DispatchFirstInTableOrder(all, text, |table| + k);
      case None =>
        assert forall j :: 0 <= j < |all| ==> !Contains(text, all[j].phrase) by {
          forall j | 0 <= j < |all| ensures !Contains(text, all[j].phrase) {
            if j < |table| {
              assert all[j] == table[j];
            } else {
              assert all[j] == more[j - |table|];
            }
          }
        }
  }

  /** A phrase missing one of its letters from the text cannot occur in it. */
  lemma MissingLetter(text: string, pat: string, c: char)
    requires c in pat && c !in text
    ensures !Contains(text, pat)
  {
  }

  /** No trigger phrase is empty, so an empty transcript never dispatches. */
  lemma EmptyTranscriptDispatchesNothing()
    ensures forall j :: 0 <= j < |WordedActions| ==> WordedActions[j].phrase != []
    ensures Dispatch(WordedActions, "") == None
  {
  }

  /** "свет" is declared before "белый", so it wins though "белый" comes first in the text. */
  lemma WhiteLightExample()
    ensures Dispatch(WordedActions, "включи белый свет") == Some(Power(true))
  {
    assert "свет" <= "включи белый свет"[13..];
    DispatchFirstInTableOrder(WordedActions, "включи белый свет", 0);
  }

  /** "включи голубой" lacks a letter of each of the first four phrases. */
  lemma LightBlueMissesFirstFour(text: string)
    requires text == "включи голубой"
    ensures !Contains(text, "свет") && !Contains(text, "тьма")
    ensures !Contains(text, "белый") && !Contains(text, "фиолетовый")
  {
    MissingLetter(text, "свет", 'с');
    MissingLetter(text, "тьма", 'т');
    MissingLetter(text, "белый", 'е');
    MissingLetter(text, "фиолетовый", 'ф');
  }

  /** "включи голубой" lacks a letter of "пурпурный", "красный" and "зелёный". */
  lemma LightBlueMissesNextThree(text: string)
    requires text == "включи голубой"
    ensures !Contains(text, "пурпурный") && !Contains(text, "красный") && !Contains(text, "зелёный")
  {
    MissingLetter(text, "пурпурный", 'п');
    MissingLetter(text, "красный", 'р');
    MissingLetter(text, "зелёный", 'з');
  }

  /** "голубой" is the first entry the phrase "включи голубой" contains. */
  lemma LightBlueExample()
    ensures Dispatch(WordedActions, "включи голубой") == Some(Color(205, 92, 92))
  {
    var text := "включи голубой";
    assert "голубой" <= text[7..];
    LightBlueMissesFirstFour(text);
    LightBlueMissesNextThree(text);
    forall j | 0 <= j < 7 ensures !Contains(text, WordedActions[j].phrase) {
      var p := WordedActions[j].phrase;
      assert p == "свет" || p == "тьма" || p == "белый" || p == "фиолетовый"
        || p == "пурпурный" || p == "красный" || p == "зелёный";
    }
    assert FirstMatchAt(WordedActions, text, 7);
    DispatchFirstInTableOrder(WordedActions, text, 7);
  }
}
