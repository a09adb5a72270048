/**
 * The message service (src/services/MessageService.ts): the list
 * transformations behind add, update, delete, reorder and mark-sent, the
 * stable sort by `order` that loading applies, and a `MessageService` class
 * whose two fields are the two AsyncStorage slots the service writes.
 */
module MessageStorage {
  import opened Wrappers
  import opened Messages
  import opened JsText
  import opened JsArray
  import Helpers

  /** The record kept under the last-sent key. */
  datatype LastSent = LastSent(messageId: string, timestamp: int)

  /** The one failure that escapes the service: the unguarded last-sent write rejecting. */
  datatype StorageError = LastSentWriteRejected

  // ---------------------------------------------------------------------------
  // addMessage
  // ---------------------------------------------------------------------------

  /** The list with the new message built from the draft appended; `id` is the generated id. */
  function Appended(messages: seq<BikeMessage>, draft: MessageDraft, id: string): seq<BikeMessage> {
    messages + [BikeMessage(id, Trim(draft.text), draft.icon, draft.color, |messages|, None, 0)]
  }

  /**
   * Adding keeps every existing message, appends one message ranked last that
   * has never been sent and carries the trimmed text; it keeps the ranks dense
   * and the ids unique when the new id is fresh, and a valid draft yields a
   * stored text that is valid and already trimmed.
   */
  lemma AppendedSpec(messages: seq<BikeMessage>, draft: MessageDraft, id: string)
    ensures |Appended(messages, draft, id)| == |messages| + 1
    ensures Appended(messages, draft, id)[..|messages|] == messages
    ensures var m := Appended(messages, draft, id)[|messages|];
            m.id == id && m.text == Trim(draft.text) && m.icon == draft.icon && m.color == draft.color
            && m.order == |messages| && m.lastSentAt == None && m.sendCount == 0
    ensures Dense(messages) ==> Dense(Appended(messages, draft, id))
    ensures UniqueIds(messages) && id !in Ids(messages) ==> UniqueIds(Appended(messages, draft, id))
    ensures Helpers.IsValidMessageText(draft.text) ==>
              var t := Appended(messages, draft, id)[|messages|].text;
              Helpers.IsValidMessageText(t) && Trim(t) == t
  {
    var r := Appended(messages, draft, id);
    assert r[..|messages|] == messages;
    assert r[|messages|] == BikeMessage(id, Trim(draft.text), draft.icon, draft.color, |messages|, None, 0);
    AppendedRanksAndIds(messages, draft, id);
    if Helpers.IsValidMessageText(draft.text) {
      TrimmedDraftValid(draft.text);
    }
  }

  /** The appended message is ranked last and carries the new id. */
  lemma AppendedRanksAndIds(messages: seq<BikeMessage>, draft: MessageDraft, id: string)
    ensures Dense(messages) ==> Dense(Appended(messages, draft, id))
    ensures UniqueIds(messages) && id !in Ids(messages) ==> UniqueIds(Appended(messages, draft, id))
  {
    var r := Appended(messages, draft, id);
    var n := |messages|;
    assert forall i :: 0 <= i < n ==> r[i] == messages[i];
    assert r[n].order == n && r[n].id == id;
    if UniqueIds(messages) && id !in Ids(messages) {
      forall i, j | 0 <= i < j < |r| ensures r[i].id != r[j].id {
        if j == n {
          assert messages[i].id in Ids(messages);
        }
      }
    }
  }

  /** A valid draft text, once trimmed, is still valid and trims to itself. */
  lemma TrimmedDraftValid(text: string)
    requires Helpers.IsValidMessageText(text)
    ensures Helpers.IsValidMessageText(Trim(text)) && Trim(Trim(text)) == Trim(text)
  {
    Helpers.ValidMessageText(text);
    TrimIdempotent(text);
  }

  // ---------------------------------------------------------------------------
  // updateMessage
  // ---------------------------------------------------------------------------

  /** A `Partial<BikeMessage>`: each field either given or absent. */
  datatype Patch = Patch(
    id: Option<string>,
    text: Option<string>,
    icon: Option<string>,
    color: Option<string>,
    order: Option<int>,
    lastSentAt: Option<int>,
    sendCount: Option<int>)

  const EmptyPatch := Patch(None, None, None, None, None, None, None)

  function Pick<T>(given: Option<T>, current: T): T {
    if given.Some? then given.value else current
  }

  /** `{ ...msg, ...updates }`: the fields the patch gives override the message's own. */
  function Merge(m: BikeMessage, p: Patch): BikeMessage {
    BikeMessage(
      Pick(p.id, m.id), Pick(p.text, m.text), Pick(p.icon, m.icon), Pick(p.color, m.color),
      Pick(p.order, m.order), if p.lastSentAt.Some? then p.lastSentAt else m.lastSentAt,
      Pick(p.sendCount, m.sendCount))
  }

  /**
   * `after` is `before` with the patch spread over it: every field the patch
   * gives takes the given value, and every field it leaves out keeps its value.
   */
  predicate PatchedFrom(before: BikeMessage, p: Patch, after: BikeMessage) {
    && (p.id.Some? ==> after.id == p.id.value) && (p.id.None? ==> after.id == before.id)
    && (p.text.Some? ==> after.text == p.text.value) && (p.text.None? ==> after.text == before.text)
    && (p.icon.Some? ==> after.icon == p.icon.value) && (p.icon.None? ==> after.icon == before.icon)
    && (p.color.Some? ==> after.color == p.color.value) && (p.color.None? ==> after.color == before.color)
    && (p.order.Some? ==> after.order == p.order.value) && (p.order.None? ==> after.order == before.order)
    && (p.lastSentAt.Some? ==> after.lastSentAt == p.lastSentAt) && (p.lastSentAt.None? ==> after.lastSentAt == before.lastSentAt)
    && (p.sendCount.Some? ==> after.sendCount == p.sendCount.value) && (p.sendCount.None? ==> after.sendCount == before.sendCount)
  }

  /**
   * The merge gives every field the patch sets its new value and keeps every
   * other field, and it is the only message that does so; an empty patch
   * changes nothing, and applying a patch twice is applying it once.
   */
  lemma MergeSpec(m: BikeMessage, p: Patch)
    ensures PatchedFrom(m, p, Merge(m, p))
    ensures forall x :: PatchedFrom(m, p, x) ==> x == Merge(m, p)
    ensures Merge(m, EmptyPatch) == m
    ensures Merge(Merge(m, p), p) == Merge(m, p)
  {
  }

  /** `messages.map(msg => msg.id === id ? { ...msg, ...updates } : msg)`. */
  function Updated(messages: seq<BikeMessage>, id: string, p: Patch): seq<BikeMessage> {
    seq(|messages|, i requires 0 <= i < |messages| => if messages[i].id == id then Merge(messages[i], p) else messages[i])
  }

  /**
   * Update patches exactly the messages carrying the id, leaves the others and
   * the length alone, is a no-op for an unknown id, and keeps the ranks dense
   * and the ids unchanged unless the patch itself sets them.
   */
  lemma UpdatedSpec(messages: seq<BikeMessage>, id: string, p: Patch)
    ensures |Updated(messages, id, p)| == |messages|
    ensures forall i :: 0 <= i < |messages| && messages[i].id != id ==> Updated(messages, id, p)[i] == messages[i]
    ensures forall i :: 0 <= i < |messages| && messages[i].id == id ==>
              PatchedFrom(messages[i], p, Updated(messages, id, p)[i])
    ensures id !in Ids(messages) ==> Updated(messages, id, p) == messages
    ensures p.order.None? && Dense(messages) ==> Dense(Updated(messages, id, p))
    ensures p.id.None? ==> Ids(Updated(messages, id, p)) == Ids(messages)
    ensures Updated(Updated(messages, id, p), id, p) == Updated(messages, id, p)
  {
    var r := Updated(messages, id, p);
    if p.id.None? {
      assert forall i :: 0 <= i < |messages| ==> r[i].id == messages[i].id;
    }
    forall i | 0 <= i < |messages| ensures Updated(r, id, p)[i] == r[i] {
      MergeSpec(messages[i], p);
    }
    forall i | 0 <= i < |messages| && messages[i].id == id ensures PatchedFrom(messages[i], p, r[i]) {
      MergeSpec(messages[i], p);
    }
  }

  // ---------------------------------------------------------------------------
  // deleteMessage
  // ---------------------------------------------------------------------------

  /** The test `msg => msg.id !== id`. */
  function IdIsNot(id: string): BikeMessage -> bool {
    (m: BikeMessage) => m.id != id
  }

  /** Filter out the id, then renumber the survivors by position. */
  function Deleted(messages: seq<BikeMessage>, id: string): seq<BikeMessage> {
    Renumber(Filter(messages, IdIsNot(id)))
  }

  lemma {:induction false} FilterUnranked(s: seq<BikeMessage>, id: string)
    ensures UnrankedAll(Filter(s, IdIsNot(id))) == Filter(UnrankedAll(s), IdIsNot(id))
  {
    if |s| > 0 {
      FilterUnranked(s[1..], id);
      assert UnrankedAll(s)[1..] == UnrankedAll(s[1..]);
      assert UnrankedAll(s)[0] == Unranked(s[0]);
    }
  }

  /**
   * After a delete no message carries the id, the ranks are dense, and the
   * other messages remain in their order with their other fields intact.
   * Deleting an unknown id from a densely ranked list changes nothing, and
   * with unique ids deleting a present id removes exactly one message.
   */
  lemma DeletedSpec(messages: seq<BikeMessage>, id: string)
    ensures id !in Ids(Deleted(messages, id))
    ensures Dense(Deleted(messages, id))
    ensures UnrankedAll(Deleted(messages, id)) == Filter(UnrankedAll(messages), IdIsNot(id))
    ensures id !in Ids(messages) ==> Deleted(messages, id) == Renumber(messages)
    ensures id !in Ids(messages) && Dense(messages) ==> Deleted(messages, id) == messages
    ensures UniqueIds(messages) && id in Ids(messages) ==> |Deleted(messages, id)| == |messages| - 1
  {
    var f := Filter(messages, IdIsNot(id));
    FilterMembers(messages, IdIsNot(id));
    FilterUnranked(messages, id);
    var r := Deleted(messages, id);
    forall i | 0 <= i < |r| ensures r[i].id != id {
      assert r[i].id == f[i].id;
    }
    if id !in Ids(messages) {
      FilterKeepsAll(messages, IdIsNot(id));
      if Dense(messages) {
        RenumberDense(messages);
      }
    } else if UniqueIds(messages) {
      var k :| 0 <= k < |messages| && messages[k].id == id;
      FilterDropsOne(messages, IdIsNot(id), k);
    }
  }

  // ---------------------------------------------------------------------------
  // markSent
  // ---------------------------------------------------------------------------

  /** Stamp the messages carrying the id with `now` and count one more send. */
  function MarkedSent(messages: seq<BikeMessage>, id: string, now: int): seq<BikeMessage> {
    seq(|messages|, i requires 0 <= i < |messages| =>
      if messages[i].id == id then messages[i].(lastSentAt := Some(now), sendCount := messages[i].sendCount + 1)
      else messages[i])
  }

  /**
   * Marking a message sent stamps it with `now` and counts one more send,
   * changes nothing else about it or the other messages, and marking it
   * twice counts two sends and keeps the later timestamp.
   */
  lemma MarkedSentSpec(messages: seq<BikeMessage>, id: string, t1: int, t2: int)
    ensures |MarkedSent(messages, id, t1)| == |messages|
    ensures forall i :: 0 <= i < |messages| && messages[i].id != id ==> MarkedSent(messages, id, t1)[i] == messages[i]
    ensures forall i :: 0 <= i < |messages| && messages[i].id == id ==>
              MarkedSent(messages, id, t1)[i].(lastSentAt := messages[i].lastSentAt, sendCount := messages[i].sendCount)
                == messages[i]
    ensures Dense(messages) ==> Dense(MarkedSent(messages, id, t1))
    ensures Ids(MarkedSent(messages, id, t1)) == Ids(messages)
    ensures forall i :: 0 <= i < |messages| && messages[i].id == id ==>
              MarkedSent(messages, id, t1)[i].lastSentAt == Some(t1)
              && MarkedSent(messages, id, t1)[i].sendCount == messages[i].sendCount + 1
    ensures forall i :: 0 <= i < |messages| && messages[i].id == id ==>
              MarkedSent(MarkedSent(messages, id, t1), id, t2)[i].sendCount == messages[i].sendCount + 2
              && MarkedSent(MarkedSent(messages, id, t1), id, t2)[i].lastSentAt == Some(t2)
  {
    var r := MarkedSent(messages, id, t1);
    assert forall i :: 0 <= i < |messages| ==> r[i].id == messages[i].id;
  }

  // ---------------------------------------------------------------------------
  // loadMessages: parsed.sort((a, b) => a.order - b.order)
  // ---------------------------------------------------------------------------

  predicate SortedByOrder(s: seq<BikeMessage>) {
    forall i, j :: 0 <= i < j < |s| ==> s[i].order <= s[j].order
  }

  /** Where a stable insertion puts x: after the last element whose order is at most x's. */
  function InsertPos(x: BikeMessage, t: seq<BikeMessage>): (p: nat)
    ensures p <= |t|
    ensures forall i :: p <= i < |t| ==> t[i].order > x.order
    ensures p > 0 ==> t[p - 1].order <= x.order
  {
    if |t| == 0 || t[|t| - 1].order <= x.order then |t| else InsertPos(x, t[..|t| - 1])
  }

  lemma InsertSplit(x: BikeMessage, t: seq<BikeMessage>, p: nat)
    requires p <= |t|
    ensures multiset(t[..p] + [x] + t[p..]) == multiset(t) + multiset{x}
  {
    assert t == t[..p] + t[p..];
  }

  lemma InsertSorted(x: BikeMessage, t: seq<BikeMessage>, p: nat)
    requires p <= |t|
    requires p > 0 ==> t[p - 1].order <= x.order
    requires forall i :: p <= i < |t| ==> t[i].order > x.order
    ensures SortedByOrder(t) ==> SortedByOrder(t[..p] + [x] + t[p..])
  {
    if !SortedByOrder(t) {
      return;
    }
    var r := t[..p] + [x] + t[p..];
    assert forall i :: 0 <= i < p ==> r[i] == t[i];
    assert r[p] == x;
    assert forall i :: p < i < |r| ==> r[i] == t[i - 1];
    forall i, j | 0 <= i < j < |r| ensures r[i].order <= r[j].order {
      if j < p {
      } else if i < p && j == p {
        assert t[i].order <= t[p - 1].order;
      } else if i < p {
        assert t[i].order <= t[j - 1].order;
      } else if i == p {
        assert r[j] == t[j - 1];
      } else {
        assert t[i - 1].order <= t[j - 1].order;
      }
    }
  }

  function InsertByOrder(x: BikeMessage, t: seq<BikeMessage>): (r: seq<BikeMessage>)
    ensures multiset(r) == multiset(t) + multiset{x}
    ensures SortedByOrder(t) ==> SortedByOrder(r)
  {
    var p := InsertPos(x, t);
    InsertSplit(x, t, p);
    InsertSorted(x, t, p);
    t[..p] + [x] + t[p..]
  }

  /**
   * The stable sort of a list by `order`: the result is sorted and is a
   * permutation of the input.
   */
  function SortByOrder(s: seq<BikeMessage>): (r: seq<BikeMessage>)
    ensures SortedByOrder(r)
    ensures multiset(r) == multiset(s)
  {
    if |s| == 0 then []
    else
      assert s == s[..|s| - 1] + [s[|s| - 1]];
      InsertByOrder(s[|s| - 1], SortByOrder(s[..|s| - 1]))
  }

  /** The test `msg => msg.order === k`. */
  function OrderIs(k: int): BikeMessage -> bool {
    (m: BikeMessage) => m.order == k
  }

  /** Inserting x lets it overtake only messages ranked strictly after it. */
  lemma InsertFilter(x: BikeMessage, t: seq<BikeMessage>, k: int)
    ensures Filter(InsertByOrder(x, t), OrderIs(k)) == Filter(t, OrderIs(k)) + Filter([x], OrderIs(k))
  {
    var p := InsertPos(x, t);
    assert t == t[..p] + t[p..];
    forall i | 0 <= i < |t[p..]| ensures !OrderIs(k)(t[p..][i]) || !OrderIs(k)(x) {
    }
    FilterOvertakes(t[..p], x, t[p..], OrderIs(k));
  }

  /**
   * The sort is stable: the messages sharing any one rank come out in the
   * order they went in.
   */
  lemma {:induction false} SortStable(s: seq<BikeMessage>, k: int)
    ensures Filter(SortByOrder(s), OrderIs(k)) == Filter(s, OrderIs(k))
  {
    if |s| > 0 {
      var init, x := s[..|s| - 1], s[|s| - 1];
      assert s == init + [x];
      calc {
        Filter(SortByOrder(s), OrderIs(k));
        Filter(InsertByOrder(x, SortByOrder(init)), OrderIs(k));
        { InsertFilter(x, SortByOrder(init), k); }
        Filter(SortByOrder(init), OrderIs(k)) + Filter([x], OrderIs(k));
        { SortStable(init, k); }
        Filter(init, OrderIs(k)) + Filter([x], OrderIs(k));
        { FilterAppend(init, [x], OrderIs(k)); }
        Filter(s, OrderIs(k));
      }
    }
  }

  /** A list already sorted by rank, such as any densely ranked list, loads unchanged. */
  lemma {:induction false} SortSorted(s: seq<BikeMessage>)
    requires SortedByOrder(s)
    ensures SortByOrder(s) == s
  {
    if |s| > 0 {
      var init := s[..|s| - 1];
      SortSorted(init);
      assert InsertPos(s[|s| - 1], init) == |init|;
      assert init[..|init|] + [s[|s| - 1]] + init[|init|..] == s;
    }
  }

  lemma DenseSorted(s: seq<BikeMessage>)
    requires Dense(s)
    ensures SortedByOrder(s)
  {
  }

  // ---------------------------------------------------------------------------
  // The service and its two storage slots
  // ---------------------------------------------------------------------------

  /**
   * The storage seen by the service: the saved list (absent before the first
   * save) and the last-sent record. Each write may fail; the failure is a
   * parameter, and so are the generated id and the clock.
   */
  class MessageService {
    /** DEFAULT_MESSAGES, the list a first launch and a reset install. */
    const defaults: seq<BikeMessage>
    var stored: Option<seq<BikeMessage>>
    var lastSent: Option<LastSent>

    constructor (defaults: seq<BikeMessage>, stored: Option<seq<BikeMessage>>, lastSent: Option<LastSent>)
      ensures this.defaults == defaults && this.stored == stored && this.lastSent == lastSent
    {
      this.defaults := defaults;
      this.stored := stored;
      this.lastSent := lastSent;
    }

    /** saveMessages: a failed write is swallowed and leaves the slot as it was. */
    method SaveMessages(messages: seq<BikeMessage>, writeFails: bool)
      modifies this
      ensures stored == if writeFails then old(stored) else Some(messages)
      ensures lastSent == old(lastSent)
    {
      if !writeFails {
        stored := Some(messages);
      }
    }

    /**
     * loadMessages: a saved list comes back sorted by rank (even an empty
     * one); with nothing saved the defaults are saved and returned; a failed
     * read yields the defaults and writes nothing.
     */
    method LoadMessages(readFails: bool, writeFails: bool) returns (r: seq<BikeMessage>)
      modifies this
      ensures readFails ==> r == defaults && stored == old(stored)
      ensures !readFails && old(stored).Some? ==> r == SortByOrder(old(stored).value) && stored == old(stored)
      ensures !readFails && old(stored).None? ==>
                r == defaults && stored == if writeFails then None else Some(defaults)
      ensures lastSent == old(lastSent)
    {
      if readFails {
        return defaults;
      }
      if stored.Some? {
        return SortByOrder(stored.value);
      }
      SaveMessages(defaults, writeFails);
      return defaults;
    }

    method AddMessage(messages: seq<BikeMessage>, draft: MessageDraft, id: string, writeFails: bool)
      returns (r: seq<BikeMessage>)
      modifies this
      ensures r == Appended(messages, draft, id)
      ensures stored == if writeFails then old(stored) else Some(r)
      ensures lastSent == old(lastSent)
    {
      r := Appended(messages, draft, id);
      SaveMessages(r, writeFails);
    }

    method UpdateMessage(messages: seq<BikeMessage>, id: string, updates: Patch, writeFails: bool)
      returns (r: seq<BikeMessage>)
      modifies this
      ensures r == Updated(messages, id, updates)
      ensures stored == if writeFails then old(stored) else Some(r)
      ensures lastSent == old(lastSent)
    {
      r := Updated(messages, id, updates);
      SaveMessages(r, writeFails);
    }

    method DeleteMessage(messages: seq<BikeMessage>, id: string, writeFails: bool)
      returns (r: seq<BikeMessage>)
      modifies this
      ensures r == Deleted(messages, id)
      ensures stored == if writeFails then old(stored) else Some(r)
      ensures lastSent == old(lastSent)
    {
      r := Deleted(messages, id);
      SaveMessages(r, writeFails);
    }

    /** reorderMessages: the source indices are used as splice arguments. */
    method ReorderMessages(messages: seq<BikeMessage>, fromIndex: int, toIndex: int, writeFails: bool)
      returns (r: seq<BikeMessage>)
      requires |messages| > 0 && fromIndex < |messages|
      modifies this
      ensures r == Helpers.Reorder(messages, fromIndex, toIndex)
      ensures stored == if writeFails then old(stored) else Some(r)
      ensures lastSent == old(lastSent)
    {
      r := Helpers.Reorder(messages, fromIndex, toIndex);
      SaveMessages(r, writeFails);
    }

    /**
     * markSent: the list save is guarded, the last-sent write is not, so a
     * failing last-sent write rejects the call after the list is saved.
     */
    method MarkSent(messages: seq<BikeMessage>, id: string, now: int, writeFails: bool, lastSentWriteFails: bool)
      returns (r: Result<seq<BikeMessage>, StorageError>)
      modifies this
      ensures stored == if writeFails then old(stored) else Some(MarkedSent(messages, id, now))
      ensures lastSentWriteFails ==> r == Failure(LastSentWriteRejected) && lastSent == old(lastSent)
      ensures !lastSentWriteFails ==>
                r == Success(MarkedSent(messages, id, now)) && lastSent == Some(LastSent(id, now))
    {
      var updated := MarkedSent(messages, id, now);
      SaveMessages(updated, writeFails);
      if lastSentWriteFails {
        return Failure(LastSentWriteRejected);
      }
      lastSent := Some(LastSent(id, now));
      return Success(updated);
    }

    method ResetToDefaults(writeFails: bool) returns (r: seq<BikeMessage>)
      modifies this
      ensures r == defaults
      ensures stored == if writeFails then old(stored) else Some(defaults)
      ensures lastSent == old(lastSent)
    {
      SaveMessages(defaults, writeFails);
      r := defaults;
    }
  }

  // ---------------------------------------------------------------------------
  // Round trips through storage
  // ---------------------------------------------------------------------------

  /**
   * A densely ranked list saved by add, update-without-rank, delete, reorder
   * or mark-sent loads back exactly as it was saved: each of these keeps the
   * ranks dense, and loading sorts a dense list to itself.
   */
  lemma SavedListsReload(messages: seq<BikeMessage>, draft: MessageDraft, id: string, p: Patch, now: int)
    requires Dense(messages)
    ensures SortByOrder(Appended(messages, draft, id)) == Appended(messages, draft, id)
    ensures p.order.None? ==> SortByOrder(Updated(messages, id, p)) == Updated(messages, id, p)
    ensures SortByOrder(Deleted(messages, id)) == Deleted(messages, id)
    ensures SortByOrder(MarkedSent(messages, id, now)) == MarkedSent(messages, id, now)
  {
    AppendedSpec(messages, draft, id);
    SortSorted(Appended(messages, draft, id));
    if p.order.None? {
      UpdatedSpec(messages, id, p);
      SortSorted(Updated(messages, id, p));
    }
    DeletedSpec(messages, id);
    SortSorted(Deleted(messages, id));
    MarkedSentSpec(messages, id, now, now);
    SortSorted(MarkedSent(messages, id, now));
  }

  lemma ReorderReloads(messages: seq<BikeMessage>, fromIndex: nat, toIndex: nat)
    requires fromIndex < |messages| && toIndex < |messages|
    ensures SortByOrder(Helpers.Reorder(messages, fromIndex, toIndex)) == Helpers.Reorder(messages, fromIndex, toIndex)
  {
    Helpers.ReorderSpec(messages, fromIndex, toIndex);
    SortSorted(Helpers.Reorder(messages, fromIndex, toIndex));
  }

  /**
   * Adding to a list of N messages and loading again gives N + 1 messages,
   * the new one ranked N; dragging it to the top then ranks it 0 and shifts
   * every other message down by one.
   */
  lemma AddThenDragToTop(messages: seq<BikeMessage>, draft: MessageDraft, id: string)
    requires Dense(messages)
    ensures var added := SortByOrder(Appended(messages, draft, id));
            |added| == |messages| + 1 && added[|messages|].order == |messages|
    ensures var moved := Helpers.Reorder(Appended(messages, draft, id), |messages|, 0);
            moved[0].id == id && moved[0].order == 0 && moved[0].text == Trim(draft.text)
            && forall i :: 0 <= i < |messages| ==> moved[i + 1] == messages[i].(order := i + 1)
  {
    SavedListsReload(messages, draft, id, EmptyPatch, 0);
    AppendedSpec(messages, draft, id);
    Helpers.ReorderLastToFront(Appended(messages, draft, id));
  }

  /** The service walk-through: save, add, reload, delete, reload. */
  method AddDeleteScenario(s: MessageService, draft: MessageDraft, id: string) returns (afterAdd: seq<BikeMessage>, afterDelete: seq<BikeMessage>)
    requires s.stored.Some? && Dense(s.stored.value) && UniqueIds(s.stored.value) && id !in Ids(s.stored.value)
    modifies s
    ensures |afterAdd| == |old(s.stored.value)| + 1
    ensures afterDelete == old(s.stored.value)
  {
    var loaded := s.LoadMessages(false, false);
    DenseSorted(s.stored.value);
    SortSorted(s.stored.value);
    afterAdd := s.AddMessage(loaded, draft, id, false);
    var reloaded := s.LoadMessages(false, false);
    SavedListsReload(loaded, draft, id, EmptyPatch, 0);
    AppendedSpec(loaded, draft, id);
    afterDelete := s.DeleteMessage(reloaded, id, false);
    var reloadedAgain := s.LoadMessages(false, false);
    assert Filter(afterAdd, IdIsNot(id)) == loaded by {
      FilterAppend(loaded, [afterAdd[|loaded|]], IdIsNot(id));
      assert afterAdd == loaded + [afterAdd[|loaded|]];
      FilterKeepsAll(loaded, IdIsNot(id));
      assert [afterAdd[|loaded|]][1..] == [];
    }
    RenumberDense(loaded);
  }
}
