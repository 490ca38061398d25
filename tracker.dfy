/** The message-status table (`messageStatusMap`): message id -> { ack, to, type, createdAt },
    written by the send handlers and by the message_ack callback, never shrunk. */
module Tracker {
  import opened Values

  /** An ISO-8601 time stamp as `new Date().toISOString()` produces it. */
  type Timestamp = string

  /** One table entry. `to` and `kind` (the `type` property) are null/undefined after an
      ack that did not carry them. */
  datatype Entry = Entry(ack: int, to: Option<string>, kind: Option<string>, createdAt: Timestamp)

  /** A message_ack event: the message's serialized id, its `to`, the ack level and its
      `type`. An empty string stands for a missing or empty property (the callback reads
      each of them with `||`). */
  datatype AckEvent = AckEvent(id: string, to: string, ack: int, kind: string)

  /** What a send handler stores: ack 0, the raw number from the request, the kind tag. */
  function SentEntry(number: string, kind: string, now: Timestamp): Entry
  {
    Entry(0, Some(number), Some(kind), now)
  }

  /** `{ ...prev, ack, to, type: msg.type || prev.type }`, with `prev` the stored entry or
      `{ createdAt: now }`. */
  function MergeAck(prev: Option<Entry>, e: AckEvent, now: Timestamp): (n: Entry)
    ensures n.ack == e.ack
    ensures n.to == (if e.to == "" then None else Some(e.to))
    ensures e.kind != "" ==> n.kind == Some(e.kind)
    ensures e.kind == "" ==> n.kind == (if prev.Some? then prev.value.kind else None)
    ensures prev.Some? ==> n.createdAt == prev.value.createdAt
    ensures prev.None? ==> n.createdAt == now
  {
    var base := if prev.Some? then prev.value else Entry(0, None, None, now);
    Entry(e.ack, if e.to == "" then None else Some(e.to), if e.kind != "" then Some(e.kind) else base.kind, base.createdAt)
  }

  /** The ack callback's table write: an upsert under the event's id, nothing without one. */
  function RecordAck(t: map<string, Entry>, e: AckEvent, now: Timestamp): (r: map<string, Entry>)
    ensures e.id == "" ==> r == t
    ensures e.id != "" ==> r.Keys == t.Keys + {e.id} && r[e.id].ack == e.ack
    ensures e.id != "" && e.id in t ==> r[e.id].createdAt == t[e.id].createdAt
    ensures e.id != "" && e.id !in t ==> r[e.id].createdAt == now
    ensures forall k :: k in t && k != e.id ==> r[k] == t[k]
  {
    if e.id == "" then t
    else t[e.id := MergeAck(if e.id in t then Some(t[e.id]) else None, e, now)]
  }

  /** A send handler's table write: `if (id) map.set(id, entry)`. */
  function RecordSent(t: map<string, Entry>, id: Option<string>, entry: Entry): (r: map<string, Entry>)
    ensures !Truthy(id) ==> r == t
    ensures Truthy(id) ==> r.Keys == t.Keys + {id.value} && r[id.value] == entry
    ensures forall k :: k in t && Some(k) != id ==> r[k] == t[k]
  {
    if Truthy(id) then t[id.value := entry] else t
  }

  /** The two writers as one trace of table operations. */
  datatype Write = Acked(event: AckEvent, at: Timestamp) | Sent(id: Option<string>, entry: Entry)

  function Apply(t: map<string, Entry>, w: Write): map<string, Entry>
  {
    match w
    case Acked(e, now) => RecordAck(t, e, now)
    case Sent(id, entry) => RecordSent(t, id, entry)
  }

  function ApplyAll(t: map<string, Entry>, ws: seq<Write>): map<string, Entry>
    decreases |ws|
  {
    if ws == [] then t else ApplyAll(Apply(t, ws[0]), ws[1..])
  }

  /** The id a write touches, if any. */
  function Touches(w: Write): Option<string>
  {
    match w
    case Acked(e, _) => if e.id == "" then None else Some(e.id)
    case Sent(id, _) => if Truthy(id) then id else None
  }

  /** One write adds at most the id it touches and changes no other entry. */
  lemma ApplyFrame(t: map<string, Entry>, w: Write)
    ensures t.Keys <= Apply(t, w).Keys
    ensures Touches(w).None? ==> Apply(t, w) == t
    ensures Touches(w).Some? ==> Apply(t, w).Keys == t.Keys + {Touches(w).value}
    ensures forall k :: k in t && Some(k) != Touches(w) ==> Apply(t, w)[k] == t[k]
  {
  }

  /** No sequence of writes removes an entry, and an id no write touches keeps its entry. */
  lemma {:induction false} EntriesPersist(t: map<string, Entry>, ws: seq<Write>, k: string)
    requires k in t
    ensures k in ApplyAll(t, ws)
    ensures (forall i :: 0 <= i < |ws| ==> Touches(ws[i]) != Some(k)) ==> ApplyAll(t, ws)[k] == t[k]
    decreases |ws|
  {
    if ws != [] {
      ApplyFrame(t, ws[0]);
      EntriesPersist(Apply(t, ws[0]), ws[1..], k);
      assert forall i :: 1 <= i < |ws| ==> ws[i] == ws[1..][i - 1];
    }
  }

  /** Acks alone never change when an entry was created, whatever their order. */
  lemma {:induction false} AcksKeepCreatedAt(t: map<string, Entry>, ws: seq<Write>, k: string)
    requires k in t
    requires forall i :: 0 <= i < |ws| ==> ws[i].Acked?
    ensures k in ApplyAll(t, ws) && ApplyAll(t, ws)[k].createdAt == t[k].createdAt
    decreases |ws|
  {
    if ws != [] {
      assert ws[0].Acked?;
      AcksKeepCreatedAt(Apply(t, ws[0]), ws[1..], k);
      assert forall i :: 1 <= i < |ws| ==> ws[i] == ws[1..][i - 1];
    }
  }

  /** A send replaces whatever is stored under its id, including an entry an early ack
      created. */
  lemma SendOverwritesEarlyAck(t: map<string, Entry>, e: AckEvent, now: Timestamp, entry: Entry)
    requires e.id != ""
    ensures RecordSent(RecordAck(t, e, now), Some(e.id), entry)[e.id] == entry
  {
  }

  /** A send followed by an ack: the ack level and `to` come from the event (the chat id
      replaces the raw number), the kind is kept when the event has none, and createdAt is
      the send's. */
  lemma SendThenAck(t: map<string, Entry>, id: string, number: string, kind: string, sentAt: Timestamp, e: AckEvent, now: Timestamp)
    requires id != "" && e.id == id
    ensures var after := RecordAck(RecordSent(t, Some(id), SentEntry(number, kind, sentAt)), e, now);
            && id in after
            && after[id].ack == e.ack
            && after[id].to == (if e.to == "" then None else Some(e.to))
            && after[id].kind == (if e.kind == "" then Some(kind) else Some(e.kind))
            && after[id].createdAt == sentAt
  {
  }

  /** Acks are last-writer-wins: a lower ack level arriving later replaces a higher one. */
  lemma AckMayRegress(t: map<string, Entry>, id: string, to: string, kind: string, now: Timestamp)
    requires id != ""
    ensures RecordAck(RecordAck(t, AckEvent(id, to, 3, kind), now), AckEvent(id, to, 1, kind), now)[id].ack == 1
  {
  }
}
