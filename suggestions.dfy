/**
 * The suggestions plugin of src/suggestions.ts: its state, the reducer that
 * runs on every transaction, the classification of a tracked change as an
 * insertion or a deletion, the edit that accepting or rejecting a change
 * requests, and the identifiers given to changes.
 *
 * The change set's own bookkeeping (`ChangeSet.create`, `addSteps`) belongs to
 * prosemirror-changeset; `addSteps` is a parameter of the reducer.
 */
module Suggestions {
  import opened JsValues

  // ---------------------------------------------------------------------------
  // Data model
  // ---------------------------------------------------------------------------

  /** The `{user, timestamp}` record kept in the state and handed to `addSteps`. */
  datatype Metadata = Metadata(user: string, timestamp: int)

  /** The data stored in a change-set span (ChangeMetadata). */
  datatype SpanData = SpanData(user: string, timestamp: int, deletedText: Option<string>)

  /** A span of a change: its length and the data it carries, if any. */
  datatype Span = Span(length: nat, data: Option<SpanData>)

  /**
   * One tracked change: the range [fromA, toA) of the start document it
   * replaces, the range [fromB, toB) of the current document that replaces it,
   * and the deleted and inserted spans.
   */
  datatype Change = Change(fromA: nat, toA: nat, fromB: nat, toB: nat,
                           deleted: seq<Span>, inserted: seq<Span>)

  /** An opaque handle to the change set's configuration (start document etc.). */
  type ChangeSetConfig = nat

  /** A change set: the configuration and the list of changes. */
  datatype ChangeSet = ChangeSet(config: ChangeSetConfig, changes: seq<Change>)

  /** SuggestionsPluginState; `username` is optional. */
  datatype PluginState = PluginState(
    changeSet: ChangeSet,
    inSuggestingMode: bool,
    showDeletedText: bool,
    metadata: Metadata,
    username: Option<string>)

  /** SuggestionsMeta: every key is optional. */
  datatype Meta = Meta(
    showDeletedText: Option<bool>,
    inSuggestingMode: Option<bool>,
    username: Option<string>,
    metadata: Option<Metadata>,
    removeChange: Option<Change>)

  /** What the reducer reads of a transaction: its meta for this plugin and `docChanged`. */
  datatype Transaction = Transaction(meta: Option<Meta>, docChanged: bool)

  /** `ChangeSet.addSteps(newDoc, stepMaps, data)` with the transaction's document and maps fixed. */
  type AddSteps = (ChangeSet, Metadata) -> ChangeSet

  const Anonymous: string := "Anonymous"

  // ---------------------------------------------------------------------------
  // The reducer
  // ---------------------------------------------------------------------------

  /** `state.init`: `ChangeSet.create(doc)` starts with no changes. */
  function Init(config: ChangeSetConfig, now: int): (s: PluginState)
    ensures !s.inSuggestingMode && s.showDeletedText
    ensures s.metadata == Metadata(Anonymous, now)
    ensures s.username == None
    ensures s.changeSet == ChangeSet(config, [])
  {
    PluginState(ChangeSet(config, []), false, true, Metadata(Anonymous, now), None)
  }

  /** `meta && meta.k !== undefined ? meta.k : previous` */
  function Override<T>(given: Option<T>, previous: T): T {
    if given.Some? then given.value else previous
  }

  function MetaShowDeletedText(meta: Option<Meta>): Option<bool> {
    if meta.Some? then meta.value.showDeletedText else None
  }

  function MetaInSuggestingMode(meta: Option<Meta>): Option<bool> {
    if meta.Some? then meta.value.inSuggestingMode else None
  }

  /** Two changes name the same change when all four coordinates agree. */
  predicate SameCoordinates(a: Change, b: Change) {
    a.fromA == b.fromA && a.toA == b.toA && a.fromB == b.fromB && a.toB == b.toB
  }

  /** `changes.filter(change => !(same coordinates as target))` */
  function RemoveChange(changes: seq<Change>, target: Change): (r: seq<Change>)
    ensures |r| <= |changes|
  {
    if changes == [] then []
    else if SameCoordinates(changes[0], target) then RemoveChange(changes[1..], target)
    else [changes[0]] + RemoveChange(changes[1..], target)
  }

  /** The user tracked edits are attributed to: `value.username || 'Anonymous'`. */
  function AttributedUser(username: Option<string>): (u: string)
    ensures u != ""
    ensures username.Some? && username.value != "" ==> u == username.value
    ensures username.None? || username.value == "" ==> u == Anonymous
  {
    if username.Some? && username.value != "" then username.value else Anonymous
  }

  /** `state.apply`: the new plugin state after a transaction. */
  function Apply(tr: Transaction, value: PluginState, addSteps: AddSteps, now: int): (r: PluginState)
    // the two flags take the meta's value when it defines one, on every path
    ensures r.showDeletedText == Override(MetaShowDeletedText(tr.meta), value.showDeletedText)
    ensures r.inSuggestingMode == Override(MetaInSuggestingMode(tr.meta), value.inSuggestingMode)
    // the remaining fields are never changed
    ensures r.metadata == value.metadata && r.username == value.username
    // a removeChange drops the matching changes and tracks nothing else
    ensures tr.meta.Some? && tr.meta.value.removeChange.Some? ==>
      r.changeSet == ChangeSet(value.changeSet.config,
                               RemoveChange(value.changeSet.changes, tr.meta.value.removeChange.value))
    // otherwise the change set only grows when the document changed in suggestion mode
    ensures !(tr.meta.Some? && tr.meta.value.removeChange.Some?) ==>
      r.changeSet == if tr.docChanged && r.inSuggestingMode
                     then addSteps(value.changeSet, Metadata(AttributedUser(value.username), now))
                     else value.changeSet
  {
    var showDeletedText := Override(MetaShowDeletedText(tr.meta), value.showDeletedText);
    var inSuggestingMode := Override(MetaInSuggestingMode(tr.meta), value.inSuggestingMode);
    if tr.meta.Some? && tr.meta.value.removeChange.Some? then
      var changeToRemove := tr.meta.value.removeChange.value;
      var filtered := RemoveChange(value.changeSet.changes, changeToRemove);
      value.(changeSet := ChangeSet(value.changeSet.config, filtered),
             showDeletedText := showDeletedText,
             inSuggestingMode := inSuggestingMode)
    else if !tr.docChanged || !inSuggestingMode then
      value.(showDeletedText := showDeletedText, inSuggestingMode := inSuggestingMode)
    else
      var data := Metadata(AttributedUser(value.username), now);
      value.(changeSet := addSteps(value.changeSet, data),
             showDeletedText := showDeletedText,
             inSuggestingMode := inSuggestingMode)
  }

  // ---------------------------------------------------------------------------
  // Properties of the change filter
  // ---------------------------------------------------------------------------

  /** A change survives the filter exactly when it was there and does not match. */
  lemma {:induction false} RemoveChangeMembers(changes: seq<Change>, target: Change, c: Change)
    ensures c in RemoveChange(changes, target) <==> c in changes && !SameCoordinates(c, target)
  {
    if changes != [] {
      RemoveChangeMembers(changes[1..], target, c);
      assert changes == [changes[0]] + changes[1..];
    }
  }

  /** The filter works element by element, so the survivors keep their order. */
  lemma {:induction false} RemoveChangeAppend(a: seq<Change>, b: seq<Change>, target: Change)
    ensures RemoveChange(a + b, target) == RemoveChange(a, target) + RemoveChange(b, target)
  {
    if a == [] {
      assert a + b == b;
    } else {
      assert (a + b)[0] == a[0];
      assert (a + b)[1..] == a[1..] + b;
      RemoveChangeAppend(a[1..], b, target);
    }
  }

  /** Removing a change that is not in the list leaves the list as it was. */
  lemma {:induction false} RemoveAbsentChange(changes: seq<Change>, target: Change)
    requires forall k :: 0 <= k < |changes| ==> !SameCoordinates(changes[k], target)
    ensures RemoveChange(changes, target) == changes
  {
    if changes != [] {
      RemoveAbsentChange(changes[1..], target);
      assert changes == [changes[0]] + changes[1..];
    }
  }

  /** Removing the same change twice is removing it once. */
  lemma RemoveChangeIdempotent(changes: seq<Change>, target: Change)
    ensures RemoveChange(RemoveChange(changes, target), target) == RemoveChange(changes, target)
  {
    var once := RemoveChange(changes, target);
    forall k | 0 <= k < |once| ensures !SameCoordinates(once[k], target) {
      RemoveChangeMembers(changes, target, once[k]);
    }
    RemoveAbsentChange(once, target);
  }

  /** The meta `{removeChange: change}` that accepting and rejecting dispatch. */
  function RemovalMeta(change: Change): Meta {
    Meta(None, None, None, None, Some(change))
  }

  /**
   * A removeChange transaction never adds tracked changes, whatever the
   * transaction did to the document and whatever `addSteps` would make of it:
   * resolution edits bypass tracking.
   */
  lemma RemovalBypassesTracking(tr: Transaction, value: PluginState, addSteps: AddSteps, now: int,
                                target: Change, c: Change)
    requires tr.meta == Some(RemovalMeta(target))
    ensures var r := Apply(tr, value, addSteps, now);
      && r.changeSet.config == value.changeSet.config
      && (c in r.changeSet.changes <==> c in value.changeSet.changes && !SameCoordinates(c, target))
      && r.inSuggestingMode == value.inSuggestingMode
      && r.showDeletedText == value.showDeletedText
  {
    RemoveChangeMembers(value.changeSet.changes, target, c);
  }

  /** Dispatching the same removeChange twice has the effect of dispatching it once. */
  lemma RemovalTwiceIsOnce(tr: Transaction, value: PluginState, addSteps: AddSteps, now: int, now': int)
    requires tr.meta.Some? && tr.meta.value.removeChange.Some?
    ensures Apply(tr, Apply(tr, value, addSteps, now), addSteps, now') == Apply(tr, value, addSteps, now)
  {
    RemoveChangeIdempotent(value.changeSet.changes, tr.meta.value.removeChange.value);
  }

  /** Without a document change, or with suggestion mode off afterwards, nothing is tracked. */
  lemma UntrackedTransaction(tr: Transaction, value: PluginState, addSteps: AddSteps, now: int)
    requires !tr.docChanged || !Override(MetaInSuggestingMode(tr.meta), value.inSuggestingMode)
    ensures Apply(tr, value, addSteps, now).changeSet.changes
         == if tr.meta.Some? && tr.meta.value.removeChange.Some?
            then RemoveChange(value.changeSet.changes, tr.meta.value.removeChange.value)
            else value.changeSet.changes
  {
  }

  /** The plugin state after a run of transactions, each with its own `addSteps` and clock. */
  function Run(s: PluginState, trs: seq<Transaction>, addSteps: seq<AddSteps>, clock: seq<int>): PluginState
    requires |addSteps| == |trs| && |clock| == |trs|
    decreases trs
  {
    if trs == [] then s
    else Run(Apply(trs[0], s, addSteps[0], clock[0]), trs[1..], addSteps[1..], clock[1..])
  }

  /**
   * The reducer never copies a meta's `username` into the state and `init`
   * leaves it out, so every edit tracked from an initial state is attributed
   * to 'Anonymous'.
   */
  lemma {:induction false} TrackedUserStaysAnonymous(s: PluginState, trs: seq<Transaction>,
                                                     addSteps: seq<AddSteps>, clock: seq<int>)
    requires |addSteps| == |trs| && |clock| == |trs|
    requires s.username == None
    ensures Run(s, trs, addSteps, clock).username == None
    ensures AttributedUser(Run(s, trs, addSteps, clock).username) == Anonymous
    decreases trs
  {
    if trs != [] {
      TrackedUserStaysAnonymous(Apply(trs[0], s, addSteps[0], clock[0]), trs[1..], addSteps[1..], clock[1..]);
    }
  }

  // ---------------------------------------------------------------------------
  // Classification and resolution
  // ---------------------------------------------------------------------------

  datatype ChangeKind = Insertion | Deletion

  /** A change that replaced nothing of the start document is an insertion. */
  function Kind(c: Change): (k: ChangeKind)
    ensures k == Insertion <==> c.fromA == c.toA
    ensures k == Deletion <==> c.fromA != c.toA
  {
    if c.fromA == c.toA then Insertion else Deletion
  }

  /** The document edit a resolution asks for. */
  datatype DocEdit =
    | NoEdit
    | DeleteRange(from: nat, to: nat)
    | InsertText(text: string, at: nat)

  /** What accepting or rejecting dispatches: a document edit and a meta. */
  datatype Resolution = Resolution(edit: DocEdit, meta: Meta)

  /** What one span contributes to the restored text: `span.data && span.data.deletedText`. */
  function SpanText(span: Span): string {
    if span.data.Some? && span.data.value.deletedText.Some? then span.data.value.deletedText.value else ""
  }

  /** `deleted.reduce((text, span) => text + deletedText of span, "")`, a left fold. */
  function DeletedText(spans: seq<Span>): (r: string)
    // the fold starts from the empty text and only ever appends
    ensures spans == [] ==> r == ""
    ensures forall k :: 0 <= k < |spans| ==> |SpanText(spans[k])| <= |r|
  {
    if spans == [] then "" else DeletedText(spans[..|spans| - 1]) + SpanText(spans[|spans| - 1])
  }

  /** The fold distributes over concatenation of span lists. */
  lemma {:induction false} DeletedTextAppend(a: seq<Span>, b: seq<Span>)
    ensures DeletedText(a + b) == DeletedText(a) + DeletedText(b)
  {
    if b == [] {
      assert a + b == a;
    } else {
      var b' := b[..|b| - 1];
      assert (a + b)[..|a + b| - 1] == a + b';
      assert (a + b)[|a + b| - 1] == b[|b| - 1];
      DeletedTextAppend(a, b');
    }
  }

  /** Read from the front: the first span's text comes first, then the rest, in order. */
  lemma DeletedTextCons(s: Span, rest: seq<Span>)
    ensures DeletedText([s] + rest) == SpanText(s) + DeletedText(rest)
  {
    DeletedTextAppend([s], rest);
    assert [s][..0] == [];
  }

  /** Spans that carry no deleted text contribute nothing. */
  lemma {:induction false} DeletedTextWithoutData(spans: seq<Span>)
    requires forall k :: 0 <= k < |spans| ==> spans[k].data.None? || spans[k].data.value.deletedText.None?
    ensures DeletedText(spans) == ""
  {
    if spans != [] {
      DeletedTextWithoutData(spans[..|spans| - 1]);
    }
  }

  /**
   * `acceptChange`: both of its branches (insertion and deletion) dispatch the
   * same transaction, no document edit and only the removal of the change.
   */
  function AcceptChange(change: Change): (r: Resolution)
    ensures r.edit == NoEdit
    ensures r.meta.removeChange == Some(change)
    ensures r.meta.inSuggestingMode.None? && r.meta.showDeletedText.None?
  {
    Resolution(NoEdit, RemovalMeta(change))
  }

  /**
   * `rejectChange`: an insertion's range [fromB, toB) is deleted; a deletion's
   * hidden text, if non-empty, is inserted again at fromB.
   */
  function RejectChange(change: Change): (r: Resolution)
    ensures r.meta.removeChange == Some(change)
    ensures r.meta.inSuggestingMode.None? && r.meta.showDeletedText.None?
    ensures Kind(change) == Insertion ==> r.edit == DeleteRange(change.fromB, change.toB)
    ensures Kind(change) == Deletion ==>
      (r.edit.NoEdit? <==> DeletedText(change.deleted) == "") &&
      (r.edit.InsertText? ==> r.edit == InsertText(DeletedText(change.deleted), change.fromB))
  {
    if Kind(change) == Insertion then
      Resolution(DeleteRange(change.fromB, change.toB), RemovalMeta(change))
    else
      var deletedText := DeletedText(change.deleted);
      if deletedText != "" then Resolution(InsertText(deletedText, change.fromB), RemovalMeta(change))
      else Resolution(NoEdit, RemovalMeta(change))
  }

  /**
   * After the reducer sees the transaction a resolution dispatches, no change
   * with the resolved coordinates is left, every other change is kept, and the
   * mode and visibility flags are as before.
   */
  lemma ResolutionRemovesChange(change: Change, accept: bool, docChanged: bool, value: PluginState,
                                addSteps: AddSteps, now: int, c: Change)
    ensures var res := if accept then AcceptChange(change) else RejectChange(change);
      var r := Apply(Transaction(Some(res.meta), docChanged), value, addSteps, now);
      && (c in r.changeSet.changes <==> c in value.changeSet.changes && !SameCoordinates(c, change))
      && r.inSuggestingMode == value.inSuggestingMode
      && r.showDeletedText == value.showDeletedText
  {
    RemoveChangeMembers(value.changeSet.changes, change, c);
  }

  // ---------------------------------------------------------------------------
  // Change identifiers: `${fromB}-${toB}-insert` and `${fromA}-${toA}-delete`
  // ---------------------------------------------------------------------------

  predicate IsDigit(c: char) { '0' <= c <= '9' }

  predicate AllDigits(s: string) { forall i :: 0 <= i < |s| ==> IsDigit(s[i]) }

  /** The decimal text of a number, as a template literal writes a position. */
  function Decimal(n: nat): (s: string)
    ensures |s| >= 1 && AllDigits(s)
  {
    if n < 10 then [(n + '0' as int) as char]
    else Decimal(n / 10) + [(n % 10 + '0' as int) as char]
  }

  /** The number a string of digits denotes. */
  function DecimalValue(s: string): nat
    requires AllDigits(s)
  {
    if s == [] then 0 else 10 * DecimalValue(s[..|s| - 1]) + (s[|s| - 1] as int - '0' as int)
  }

  lemma {:induction false} DecimalRoundTrip(n: nat)
    ensures DecimalValue(Decimal(n)) == n
  {
    if n >= 10 {
      DecimalRoundTrip(n / 10);
      var s := Decimal(n);
      assert s[..|s| - 1] == Decimal(n / 10);
    }
  }

  /** The identifier given to an insertion's decoration. */
  function InsertionId(c: Change): (r: string)
    ensures |r| > |"-insert"| && r[|r| - |"-insert"|..] == "-insert"
    ensures |Decimal(c.fromB)| < |r| && r[..|Decimal(c.fromB)|] == Decimal(c.fromB)
  {
    Decimal(c.fromB) + "-" + Decimal(c.toB) + "-insert"
  }

  /** The identifier given to a deletion's widget. */
  function DeletionId(c: Change): (r: string)
    ensures |r| > |"-delete"| && r[|r| - |"-delete"|..] == "-delete"
    ensures |Decimal(c.fromA)| < |r| && r[..|Decimal(c.fromA)|] == Decimal(c.fromA)
  {
    Decimal(c.fromA) + "-" + Decimal(c.toA) + "-delete"
  }

  /** Index of the first '-' in s, or |s| if there is none. */
  function DashIndex(s: string): (i: nat)
    ensures i <= |s|
    ensures forall j :: 0 <= j < i ==> s[j] != '-'
    ensures i < |s| ==> s[i] == '-'
  {
    if s == [] then 0 else if s[0] == '-' then 0 else 1 + DashIndex(s[1..])
  }

  /** A leading run of digits ended by '-': the number it denotes and the text after the dash. */
  function SplitNumber(s: string): Option<(nat, string)> {
    var i := DashIndex(s);
    if i == |s| || !AllDigits(s[..i]) then None else Some((DecimalValue(s[..i]), s[i + 1..]))
  }

  /** The two numbers and the kind an identifier names, if it is well formed. */
  function ParseChangeId(s: string): Option<(nat, nat, ChangeKind)> {
    match SplitNumber(s)
    case None => None
    case Some((x, rest)) =>
      match SplitNumber(rest)
      case None => None
      case Some((y, suffix)) =>
        if suffix == "insert" then Some((x, y, Insertion))
        else if suffix == "delete" then Some((x, y, Deletion))
        else None
  }

  /** Writing a number, a dash and a tail, and splitting the number off again, gives both back. */
  lemma SplitWrittenNumber(n: nat, tail: string)
    ensures SplitNumber(Decimal(n) + "-" + tail) == Some((n, tail))
  {
    var d := Decimal(n);
    var s := d + "-" + tail;
    assert forall j :: 0 <= j < |d| ==> s[j] == d[j];
    assert s[|d|] == '-';
    assert DashIndex(s) == |d|;
    assert s[..|d|] == d;
    assert s[|d| + 1..] == tail;
    DecimalRoundTrip(n);
  }

  /** An identifier written from two numbers and a word parses back to them. */
  lemma IdRoundTrip(x: nat, y: nat, word: string)
    ensures ParseChangeId(Decimal(x) + "-" + Decimal(y) + "-" + word)
         == if word == "insert" then Some((x, y, Insertion))
            else if word == "delete" then Some((x, y, Deletion))
            else None
  {
    var tail := Decimal(y) + "-" + word;
    assert Decimal(x) + "-" + Decimal(y) + "-" + word == Decimal(x) + "-" + tail;
    SplitWrittenNumber(x, tail);
    SplitWrittenNumber(y, word);
  }

  /** The identifier of an insertion names its current range and its kind. */
  lemma InsertionIdRoundTrip(c: Change)
    ensures ParseChangeId(InsertionId(c)) == Some((c.fromB, c.toB, Insertion))
  {
    var dx, dy := Decimal(c.fromB), Decimal(c.toB);
    assert "-insert" == "-" + "insert";
    assert InsertionId(c) == dx + "-" + dy + "-" + "insert";
    IdRoundTrip(c.fromB, c.toB, "insert");
  }

  /** The identifier of a deletion names its start-document range and its kind. */
  lemma DeletionIdRoundTrip(c: Change)
    ensures ParseChangeId(DeletionId(c)) == Some((c.fromA, c.toA, Deletion))
  {
    var dx, dy := Decimal(c.fromA), Decimal(c.toA);
    assert "-delete" == "-" + "delete";
    assert DeletionId(c) == dx + "-" + dy + "-" + "delete";
    IdRoundTrip(c.fromA, c.toA, "delete");
  }
}
