/**
 * The mark-based suggestions plugin of src/suggestions.js: a plugin state that
 * merges whatever a transaction's meta holds, an `appendTransaction` hook that
 * marks the text each step inserted or removed while suggestion mode is on,
 * and a key handler for Backspace and Delete over a selection.
 *
 * Steps and their position maps are plain records; reading the text that a
 * step removes from the old document is a parameter, and so is the clock.
 */
module LegacySuggestions {
  import opened JsValues

  // ---------------------------------------------------------------------------
  // Plugin state
  // ---------------------------------------------------------------------------

  /** `state.init`: suggestion mode on, user 'Anonymous', deleted text shown. */
  function Init(now: int): (s: Record)
    ensures Get(s, "suggestionMode") == JBool(true) && Truthy(Get(s, "suggestionMode"))
    ensures Get(s, "username") == JString("Anonymous")
    ensures Get(s, "showDeletedText") == JBool(true)
    ensures Get(s, "metadata") == JObject(map["user" := JString("Anonymous"), "timestamp" := JNumber(now)])
    ensures s.Keys == {"suggestionMode", "username", "showDeletedText", "metadata"}
  {
    map[
      "suggestionMode" := JBool(true),
      "username" := JString("Anonymous"),
      "showDeletedText" := JBool(true),
      "metadata" := JObject(map["user" := JString("Anonymous"), "timestamp" := JNumber(now)])
    ]
  }

  /** `state.apply`: a meta object is merged over the state; without one the state is kept. */
  function Apply(meta: Option<Record>, value: Record): (r: Record)
    ensures meta.None? ==> r == value
    ensures meta.Some? ==> r.Keys == value.Keys + meta.value.Keys
    ensures meta.Some? ==> forall k :: k in meta.value ==> r[k] == meta.value[k]
    ensures meta.Some? ==> forall k :: k in value && k !in meta.value ==> r[k] == value[k]
  {
    if meta.Some? then Spread(value, meta.value) else value
  }

  /** Merging the same meta a second time changes nothing more. */
  lemma ApplyIdempotent(meta: Option<Record>, value: Record)
    ensures Apply(meta, Apply(meta, value)) == Apply(meta, value)
  {
    if meta.Some? {
      var once := Apply(meta, value);
      var twice := Apply(meta, once);
      assert twice.Keys == once.Keys;
      forall k | k in once ensures twice[k] == once[k] {
      }
    }
  }

  /** Later metas win: merging m1 and then m2 is merging m1's fields overridden by m2's. */
  lemma ApplyCompose(m1: Record, m2: Record, value: Record)
    ensures Apply(Some(m2), Apply(Some(m1), value)) == Apply(Some(Spread(m1, m2)), value)
  {
    var lhs := Apply(Some(m2), Apply(Some(m1), value));
    var rhs := Apply(Some(Spread(m1, m2)), value);
    assert lhs.Keys == rhs.Keys;
    forall k | k in lhs ensures lhs[k] == rhs[k] {
    }
  }

  // ---------------------------------------------------------------------------
  // appendTransaction
  // ---------------------------------------------------------------------------

  /** One entry of a step map: `(oldStart, oldEnd, newStart, newEnd)`. */
  datatype MappedRange = MappedRange(oldStart: int, oldEnd: int, newStart: int, newEnd: int)

  /**
   * A step as appendTransaction reads it: the size of its slice, if it has one,
   * its `from` and `to`, if defined, and the ranges its step map reports (`ranges`).
   */
  datatype Step = Step(sliceSize: Option<nat>, from: Option<int>, to: Option<int>, ranges: seq<MappedRange>)

  datatype LegacyTransaction = LegacyTransaction(docChanged: bool, steps: seq<Step>)

  /** The attributes of the two suggestion marks. */
  datatype MarkAttrs =
    | SuggestionAdd(username: JsValue, timestamp: int)
    | SuggestionDelete(username: JsValue, timestamp: int, deletedText: string)

  /** `tr.addMark(from, to, mark)` */
  datatype AddMark = AddMark(from: int, to: int, mark: MarkAttrs)

  /** `oldState.doc.textBetween(from, to)` */
  type TextBetween = (int, int) -> string

  /** `step.slice && step.slice.content.size`: the step inserts content. */
  predicate IsInsertion(step: Step) {
    step.sliceSize.Some? && step.sliceSize.value != 0
  }

  /** `step.from !== undefined && step.to !== undefined` for a step that inserts nothing. */
  predicate IsDeletion(step: Step) {
    !IsInsertion(step) && step.from.Some? && step.to.Some?
  }

  /** The marks added for one step. */
  function StepMarks(step: Step, username: JsValue, now: int, textBetween: TextBetween): (r: seq<AddMark>)
    // an insertion adds one suggestion_add mark per range of the step map, in map order
    ensures IsInsertion(step) ==> |r| == |step.ranges|
    ensures IsInsertion(step) ==> forall k :: 0 <= k < |step.ranges| ==>
      r[k] == AddMark(step.ranges[k].newStart, step.ranges[k].newEnd, SuggestionAdd(username, now))
    // a deletion marks [from, from + 1) with the removed text, or nothing when no text was removed
    ensures IsDeletion(step) ==>
              var text := textBetween(step.from.value, step.to.value);
              r == if text == "" then [] else [AddMark(step.from.value, step.from.value + 1, SuggestionDelete(username, now, text))]
    // any other step adds nothing
    ensures !IsInsertion(step) && !IsDeletion(step) ==> r == []
  {
    if IsInsertion(step) then
      seq(|step.ranges|, k requires 0 <= k < |step.ranges| =>
        AddMark(step.ranges[k].newStart, step.ranges[k].newEnd, SuggestionAdd(username, now)))
    else if IsDeletion(step) then
      var deletedContent := textBetween(step.from.value, step.to.value);
      if deletedContent != "" then
        [AddMark(step.from.value, step.from.value + 1, SuggestionDelete(username, now, deletedContent))]
      else []
    else []
  }

  /** The marks added for a list of steps, in order. */
  function StepsMarks(steps: seq<Step>, username: JsValue, now: int, textBetween: TextBetween): seq<AddMark> {
    if steps == [] then []
    else StepsMarks(steps[..|steps| - 1], username, now, textBetween)
         + StepMarks(steps[|steps| - 1], username, now, textBetween)
  }

  /** The marks added for a list of transactions, in order. */
  function TransactionsMarks(trs: seq<LegacyTransaction>, username: JsValue, now: int,
                             textBetween: TextBetween): seq<AddMark> {
    if trs == [] then []
    else TransactionsMarks(trs[..|trs| - 1], username, now, textBetween)
         + StepsMarks(trs[|trs| - 1].steps, username, now, textBetween)
  }

  predicate AnyDocChanged(trs: seq<LegacyTransaction>) {
    exists k :: 0 <= k < |trs| && trs[k].docChanged
  }

  /** What appendTransaction returns: None for null, otherwise the marks its transaction adds. */
  function AppendTransactionResult(trs: seq<LegacyTransaction>, pluginState: Record, now: int,
                                   textBetween: TextBetween): (r: Option<seq<AddMark>>)
    ensures !Truthy(Get(pluginState, "suggestionMode")) ==> r == None
    ensures (forall k :: 0 <= k < |trs| ==> !trs[k].docChanged) ==> r == None
    ensures r.Some? ==> r.value != [] && r.value == TransactionsMarks(trs, Get(pluginState, "username"), now, textBetween)
    ensures Truthy(Get(pluginState, "suggestionMode")) && AnyDocChanged(trs)
            && TransactionsMarks(trs, Get(pluginState, "username"), now, textBetween) != [] ==>
              r == Some(TransactionsMarks(trs, Get(pluginState, "username"), now, textBetween))
  {
    if !Truthy(Get(pluginState, "suggestionMode")) then None
    else if !AnyDocChanged(trs) then None
    else
      var marks := TransactionsMarks(trs, Get(pluginState, "username"), now, textBetween);
      if marks == [] then None else Some(marks)
  }

  /** The body of the inner `forEach`: add to `tr` the marks one step calls for. */
  method MarkStep(tr: seq<AddMark>, step: Step, username: JsValue, now: int, textBetween: TextBetween)
    returns (tr': seq<AddMark>)
    ensures tr' == tr + StepMarks(step, username, now, textBetween)
  {
    tr' := tr;
    if step.sliceSize.Some? && step.sliceSize.value != 0 {
      // an insertion: mark every new range the step map reports
      ghost var marks := StepMarks(step, username, now, textBetween);
      var k := 0;
      while k < |step.ranges|
        invariant 0 <= k <= |step.ranges|
        invariant tr' == tr + marks[..k]
      {
        tr' := tr' + [AddMark(step.ranges[k].newStart, step.ranges[k].newEnd, SuggestionAdd(username, now))];
        assert marks[..k + 1] == marks[..k] + [marks[k]];
        k := k + 1;
      }
      assert marks[..k] == marks;
    } else if step.from.Some? && step.to.Some? {
      // a deletion: mark one position, if any text was removed
      var deletedContent := textBetween(step.from.value, step.to.value);
      if deletedContent != "" {
        tr' := tr' + [AddMark(step.from.value, step.from.value + 1,
                              SuggestionDelete(username, now, deletedContent))];
      }
    }
  }

  lemma StepsMarksSnoc(steps: seq<Step>, j: nat, username: JsValue, now: int, textBetween: TextBetween)
    requires j < |steps|
    ensures StepsMarks(steps[..j + 1], username, now, textBetween)
         == StepsMarks(steps[..j], username, now, textBetween) + StepMarks(steps[j], username, now, textBetween)
  {
    assert steps[..j + 1][..j] == steps[..j];
  }

  /** The inner `forEach` over one transaction's steps. */
  method MarkSteps(steps: seq<Step>, username: JsValue, now: int, textBetween: TextBetween)
    returns (marks: seq<AddMark>)
    ensures marks == StepsMarks(steps, username, now, textBetween)
  {
    marks := [];
    var j := 0;
    while j < |steps|
      invariant 0 <= j <= |steps|
      invariant marks == StepsMarks(steps[..j], username, now, textBetween)
    {
      marks := MarkStep(marks, steps[j], username, now, textBetween);
      StepsMarksSnoc(steps, j, username, now, textBetween);
      j := j + 1;
    }
    assert steps[..j] == steps;
  }

  /**
   * appendTransaction: for every step of every transaction, add the marks
   * that step calls for to one accumulating transaction; return it if it
   * holds any.
   */
  method AppendTransaction(transactions: seq<LegacyTransaction>, pluginState: Record, now: int,
                           textBetween: TextBetween) returns (r: Option<seq<AddMark>>)
    ensures r == AppendTransactionResult(transactions, pluginState, now, textBetween)
  {
    if !Truthy(Get(pluginState, "suggestionMode")) {
      return None;
    }
    if !AnyDocChanged(transactions) {
      return None;
    }
    var username := Get(pluginState, "username");
    var tr: seq<AddMark> := [];
    var i := 0;
    while i < |transactions|
      invariant 0 <= i <= |transactions|
      invariant tr == TransactionsMarks(transactions[..i], username, now, textBetween)
    {
      var marks := MarkSteps(transactions[i].steps, username, now, textBetween);
      tr := tr + marks;
      assert transactions[..i + 1][..i] == transactions[..i];
      i := i + 1;
    }
    assert transactions[..i] == transactions;
    if |tr| == 0 {
      return None;
    }
    return Some(tr);
  }

  /** The shape every appended mark has: attributed to the state's user, stamped now, deletions one position wide. */
  predicate WellFormedMark(m: AddMark, username: JsValue, now: int) {
    && m.mark.username == username
    && m.mark.timestamp == now
    && (m.mark.SuggestionDelete? ==> m.to == m.from + 1 && m.mark.deletedText != "")
  }

  lemma {:induction false} StepsMarksWellFormed(steps: seq<Step>, username: JsValue, now: int,
                                                textBetween: TextBetween)
    ensures forall m :: m in StepsMarks(steps, username, now, textBetween) ==> WellFormedMark(m, username, now)
  {
    if steps != [] {
      StepsMarksWellFormed(steps[..|steps| - 1], username, now, textBetween);
    }
  }

  /** Every mark appendTransaction adds is well formed. */
  lemma {:induction false} AppendedMarksWellFormed(trs: seq<LegacyTransaction>, pluginState: Record, now: int,
                                                   textBetween: TextBetween)
    ensures var r := AppendTransactionResult(trs, pluginState, now, textBetween);
      r.Some? ==> forall m :: m in r.value ==> WellFormedMark(m, Get(pluginState, "username"), now)
  {
    TransactionsMarksWellFormed(trs, Get(pluginState, "username"), now, textBetween);
  }

  lemma {:induction false} TransactionsMarksWellFormed(trs: seq<LegacyTransaction>, username: JsValue, now: int,
                                                       textBetween: TextBetween)
    ensures forall m :: m in TransactionsMarks(trs, username, now, textBetween) ==> WellFormedMark(m, username, now)
  {
    if trs != [] {
      TransactionsMarksWellFormed(trs[..|trs| - 1], username, now, textBetween);
      StepsMarksWellFormed(trs[|trs| - 1].steps, username, now, textBetween);
    }
  }

  /** The number of marks a list of steps adds: one per reported range of an insertion, one per non-empty deletion. */
  function ExpectedMarkCount(steps: seq<Step>, textBetween: TextBetween): nat {
    if steps == [] then 0
    else
      var step := steps[|steps| - 1];
      ExpectedMarkCount(steps[..|steps| - 1], textBetween) +
        (if IsInsertion(step) then |step.ranges|
         else if IsDeletion(step) && textBetween(step.from.value, step.to.value) != "" then 1
         else 0)
  }

  lemma {:induction false} StepsMarkCount(steps: seq<Step>, username: JsValue, now: int, textBetween: TextBetween)
    ensures |StepsMarks(steps, username, now, textBetween)| == ExpectedMarkCount(steps, textBetween)
  {
    if steps != [] {
      StepsMarkCount(steps[..|steps| - 1], username, now, textBetween);
    }
  }

  // ---------------------------------------------------------------------------
  // handleKeyDown
  // ---------------------------------------------------------------------------

  /** What the key handler did: whether it handled the key, and the mark it dispatched. */
  datatype KeyOutcome = KeyOutcome(handled: bool, dispatched: Option<AddMark>)

  /**
   * handleKeyDown: in suggestion mode, Backspace or Delete over a non-empty
   * selection [from, to) marks one position as deleted instead of deleting.
   */
  function HandleKeyDown(pluginState: Record, key: string, from: int, to: int, now: int,
                         textBetween: TextBetween): (r: KeyOutcome)
    ensures r.handled <==> Truthy(Get(pluginState, "suggestionMode"))
                           && (key == "Backspace" || key == "Delete") && from != to
    ensures r.dispatched.Some? <==> r.handled
    ensures r.handled ==>
              r.dispatched.value
                == AddMark(from, from + 1, SuggestionDelete(Get(pluginState, "username"), now, textBetween(from, to)))
  {
    if !Truthy(Get(pluginState, "suggestionMode")) then KeyOutcome(false, None)
    else if key == "Backspace" || key == "Delete" then
      if from != to then
        var deletedContent := textBetween(from, to);
        KeyOutcome(true, Some(AddMark(from, from + 1,
                                      SuggestionDelete(Get(pluginState, "username"), now, deletedContent))))
      else KeyOutcome(false, None)
    else KeyOutcome(false, None)
  }
}
