/**
 * The quick-send message record (src/types/index.ts) and the order
 * bookkeeping every list operation shares.
 */
module Messages {
  import opened Wrappers

  /**
   * One quick-send entry. `order` is its rank in the list and `lastSentAt`
   * is absent until the first send. Numbers are unbounded integers here.
   */
  datatype BikeMessage = BikeMessage(
    id: string,
    text: string,
    icon: string,
    color: string,
    order: int,
    lastSentAt: Option<int>,
    sendCount: int)

  /** The user's input for a new message. */
  datatype MessageDraft = MessageDraft(text: string, icon: string, color: string)

  /** The confirmation a send produces: which message, its text, and when. */
  datatype SendConfirmation = SendConfirmation(messageId: string, messageText: string, timestamp: int)

  /** Every message's `order` is its index: the ranks are exactly 0..|s|-1. */
  predicate Dense(s: seq<BikeMessage>) {
    forall i :: 0 <= i < |s| ==> s[i].order == i
  }

  /** A message with its rank erased, so that lists can be compared up to renumbering. */
  function Unranked(m: BikeMessage): BikeMessage {
    m.(order := 0)
  }

  function UnrankedAll(s: seq<BikeMessage>): (r: seq<BikeMessage>)
    ensures |r| == |s| && forall i :: 0 <= i < |s| ==> r[i] == Unranked(s[i])
  {
    seq(|s|, i requires 0 <= i < |s| => Unranked(s[i]))
  }

  /** `list.map((msg, index) => ({...msg, order: index}))`. */
  function Renumber(s: seq<BikeMessage>): (r: seq<BikeMessage>)
    ensures |r| == |s|
    ensures Dense(r)
    ensures UnrankedAll(r) == UnrankedAll(s)
  {
    seq(|s|, i requires 0 <= i < |s| => s[i].(order := i))
  }

  /** Renumbering a list whose ranks are already dense changes nothing. */
  lemma RenumberDense(s: seq<BikeMessage>)
    requires Dense(s)
    ensures Renumber(s) == s
  {
  }

  /** Renumbering looks only at positions and the other fields, never at the old ranks. */
  lemma RenumberUnranked(s: seq<BikeMessage>, t: seq<BikeMessage>)
    requires UnrankedAll(s) == UnrankedAll(t)
    ensures Renumber(s) == Renumber(t)
  {
    assert |s| == |t|;
    forall i | 0 <= i < |s| ensures Renumber(s)[i] == Renumber(t)[i] {
      assert Unranked(s[i]) == UnrankedAll(s)[i] == UnrankedAll(t)[i] == Unranked(t[i]);
    }
  }

  lemma UnrankedAppend(a: seq<BikeMessage>, b: seq<BikeMessage>)
    ensures UnrankedAll(a + b) == UnrankedAll(a) + UnrankedAll(b)
  {
  }

  /** No two messages share an id. */
  predicate UniqueIds(s: seq<BikeMessage>) {
    forall i, j :: 0 <= i < j < |s| ==> s[i].id != s[j].id
  }

  /** The ids in the list. */
  function Ids(s: seq<BikeMessage>): (r: set<string>)
    ensures forall id :: id in r <==> exists i :: 0 <= i < |s| && s[i].id == id
  {
    set i | 0 <= i < |s| :: s[i].id
  }
}
