/** Tier-2.5 split state: the sender cuts a KV blob into indexed chunks, the
    session reassembles chunks that arrive in any order, duplicated, and mixed
    with the chunks of other ids. A string is its UTF-8 bytes, so `|s|` is
    Rust's `String::len`. */
module SplitTransfer {
  import opened Base

  type Bytes = seq<Byte>

  const WS_HARD_MAX_BYTES: nat := 0x4000_0000
  const WS_STATE_CHUNK_CHARS: nat := 786_432
  const WS_STATE_INLINE_MAX: nat := WS_STATE_CHUNK_CHARS

  datatype Chunk = Chunk(id: string, index: nat, total: nat, data: Bytes)

  /** `notify` names the `Arc<Notify>`: two entries share a waker iff equal. */
  datatype Entry = Entry(total: nat, parts: seq<Option<Bytes>>, have: nat, notify: nat)

  datatype Inbox = Inbox(ceiling: nat, entries: map<string, Entry>, nextNotify: nat)

  datatype Verdict = Accepted | BadIndex | PayloadTooLarge | TotalMismatch | OverCeiling

  datatype PollResult = Assembled(text: Bytes) | Waiting(notify: nat) | PollMismatch

  // ---- what is stored ----

  function StoredBytes(parts: seq<Option<Bytes>>): nat
  {
    if parts == [] then 0
    else (if parts[0].Some? then |parts[0].value| else 0) + StoredBytes(parts[1..])
  }

  function FilledIndices(parts: seq<Option<Bytes>>): set<nat>
  {
    set i: nat | i < |parts| && parts[i].Some?
  }

  function Untouched(total: nat, notify: nat): Entry
  {
    Entry(total, seq(total, _ => None), 0, notify)
  }

  function Values(parts: seq<Option<Bytes>>): seq<Bytes>
    requires forall i :: 0 <= i < |parts| ==> parts[i].Some?
  {
    seq(|parts|, i requires 0 <= i < |parts| => parts[i].value)
  }

  // ---- the critical sections, as functions of the session ----

  function EntryFor(s: Inbox, id: string, total: nat): Entry
  {
    if id in s.entries then s.entries[id] else Untouched(total, s.nextNotify)
  }

  function WithEntry(s: Inbox, id: string, e: Entry): Inbox
  {
    s.(entries := s.entries[id := e], nextNotify := if id in s.entries then s.nextNotify else s.nextNotify + 1)
  }

  function Without(s: Inbox, id: string): Inbox { s.(entries := s.entries - {id}) }

  function Push(s: Inbox, m: Chunk): (Inbox, Verdict)
  {
    if m.total == 0 || m.index >= m.total then (s, BadIndex)
    else if |m.data| > WS_STATE_CHUNK_CHARS + 1024 then (s, PayloadTooLarge)
    else
      var e := EntryFor(s, m.id, m.total);
      if e.total != m.total then (s, TotalMismatch)
      else if m.index >= |e.parts| || e.parts[m.index].Some? then (WithEntry(s, m.id, e), Accepted)
      else if StoredBytes(e.parts) + |m.data| > s.ceiling then (Without(WithEntry(s, m.id, e), m.id), OverCeiling)
      else (WithEntry(s, m.id, e.(parts := e.parts[m.index := Some(m.data)], have := e.have + 1)), Accepted)
  }

  predicate Ready(s: Inbox, id: string, total: nat)
  {
    id in s.entries && s.entries[id].total == total && s.entries[id].have == total
  }

  /** One pass of the waiter under the lock: take the finished text, or make
      sure an entry exists and hand back its notifier. */
  function Poll(s: Inbox, id: string, total: nat): (Inbox, PollResult)
  {
    if Ready(s, id, total) && forall i :: 0 <= i < |s.entries[id].parts| ==> s.entries[id].parts[i].Some? then
      (Without(s, id), Assembled(Concat(Values(s.entries[id].parts))))
    else
      var s1 := if Ready(s, id, total) then Without(s, id) else s;
      var e := EntryFor(s1, id, total);
      if e.total != total then (s1, PollMismatch) else (WithEntry(s1, id, e), Waiting(e.notify))
  }

  function AdvertisedCeiling(current: nat, advertised: Option<nat>): nat
  {
    if advertised.None? || advertised.value == 0 then current else Min(advertised.value, WS_HARD_MAX_BYTES)
  }

  datatype Event =
    | Pushed(m: Chunk)
    | Polled(id: string, total: nat)
    | Expired(id: string)
    | CeilingAdvertised(advertised: Option<nat>)

  function Step(s: Inbox, e: Event): Inbox
  {
    match e
    case Pushed(m) => Push(s, m).0
    case Polled(id, total) => Poll(s, id, total).0
    case Expired(id) => Without(s, id)
    case CeilingAdvertised(a) => s.(ceiling := AdvertisedCeiling(s.ceiling, a))
  }

  function After(s: Inbox, events: seq<Event>): Inbox
  {
    if events == [] then s else Step(After(s, events[..|events| - 1]), events[|events| - 1])
  }

  // ---- invariant of every run ----

  predicate EntryOk(e: Entry)
  {
    && |e.parts| == e.total
    && e.have == |FilledIndices(e.parts)|
    && StoredBytes(e.parts) <= WS_HARD_MAX_BYTES
  }

  predicate InboxOk(s: Inbox)
  {
    && s.ceiling <= WS_HARD_MAX_BYTES
    && forall id :: id in s.entries ==> EntryOk(s.entries[id])
  }

  lemma {:induction false} StoredUpdate(parts: seq<Option<Bytes>>, i: nat, data: Bytes)
    requires i < |parts| && parts[i].None?
    ensures StoredBytes(parts[i := Some(data)]) == StoredBytes(parts) + |data|
  {
    if i > 0 {
      StoredUpdate(parts[1..], i - 1, data);
      assert parts[i := Some(data)][1..] == parts[1..][i - 1 := Some(data)];
    } else {
      assert parts[0 := Some(data)][1..] == parts[1..];
    }
  }

  lemma FilledUpdate(parts: seq<Option<Bytes>>, i: nat, data: Bytes)
    requires i < |parts| && parts[i].None?
    ensures FilledIndices(parts[i := Some(data)]) == FilledIndices(parts) + {i}
    ensures |FilledIndices(parts[i := Some(data)])| == |FilledIndices(parts)| + 1
  {
    assert FilledIndices(parts[i := Some(data)]) == FilledIndices(parts) + {i};
  }

  lemma {:induction false} StoredUntouched(n: nat)
    ensures StoredBytes(seq(n, _ => None)) == 0
  {
    if n > 0 {
      StoredUntouched(n - 1);
      assert seq<Option<Bytes>>(n, _ => None)[1..] == seq<Option<Bytes>>(n - 1, _ => None);
    }
  }

  lemma UntouchedOk(total: nat, notify: nat)
    ensures EntryOk(Untouched(total, notify)) && FilledIndices(Untouched(total, notify).parts) == {}
    ensures StoredBytes(Untouched(total, notify).parts) == 0
  {
    StoredUntouched(total);
    assert FilledIndices(Untouched(total, notify).parts) == {};
  }

  lemma GainKeepsOk(e: Entry, i: nat, data: Bytes)
    requires EntryOk(e) && i < |e.parts| && e.parts[i].None? && StoredBytes(e.parts) + |data| <= WS_HARD_MAX_BYTES
    ensures EntryOk(e.(parts := e.parts[i := Some(data)], have := e.have + 1))
  {
    StoredUpdate(e.parts, i, data);
    FilledUpdate(e.parts, i, data);
  }

  lemma PushKeepsOk(s: Inbox, m: Chunk)
    requires InboxOk(s)
    ensures InboxOk(Push(s, m).0)
  {
    UntouchedOk(m.total, s.nextNotify);
    var e := EntryFor(s, m.id, m.total);
    assert EntryOk(e);
    if m.index < |e.parts| && e.parts[m.index].None? && StoredBytes(e.parts) + |m.data| <= s.ceiling {
      GainKeepsOk(e, m.index, m.data);
    }
  }

  lemma StepKeepsOk(s: Inbox, e: Event)
    requires InboxOk(s)
    ensures InboxOk(Step(s, e))
  {
    match e {
      case Pushed(m) => PushKeepsOk(s, m);
      case Polled(id, total) => UntouchedOk(total, s.nextNotify);
      case _ =>
    }
  }

  /** In every run: `have` counts the filled parts, there are `total` slots, and
      no reassembly ever stores more than 2^30 bytes. */
  lemma {:induction false} RunKeepsOk(s: Inbox, events: seq<Event>)
    requires InboxOk(s)
    ensures InboxOk(After(s, events))
  {
    if events != [] {
      RunKeepsOk(s, events[..|events| - 1]);
      StepKeepsOk(After(s, events[..|events| - 1]), events[|events| - 1]);
    }
  }

  // ---- the sender's chunks ----

  function Chunks(text: Bytes, size: nat): (r: seq<Bytes>)
    requires size > 0
    decreases |text|
  {
    if text == [] then [] else if |text| <= size then [text] else [text[..size]] + Chunks(text[size..], size)
  }

  lemma {:induction false} ChunksConcat(text: Bytes, size: nat)
    requires size > 0
    ensures Concat(Chunks(text, size)) == text
    decreases |text|
  {
    if |text| > size {
      ChunksConcat(text[size..], size);
      ConcatAppend([text[..size]], Chunks(text[size..], size));
      assert Concat([text[..size]]) == text[..size];
      assert text[..size] + text[size..] == text;
    } else if text != [] {
      assert [text][1..] == [];
    }
  }

  lemma {:induction false} ChunkSizes(text: Bytes, size: nat)
    requires size > 0
    ensures forall i :: 0 <= i < |Chunks(text, size)| ==> 0 < |Chunks(text, size)[i]| <= size
    ensures forall i :: 0 <= i < |Chunks(text, size)| - 1 ==> |Chunks(text, size)[i]| == size
    decreases |text|
  {
    if |text| > size { ChunkSizes(text[size..], size); }
  }

  lemma ChunksRebuild(text: Bytes, size: nat)
    requires size > 0
    ensures Concat(Chunks(text, size)) == text
    ensures forall i :: 0 <= i < |Chunks(text, size)| ==> 0 < |Chunks(text, size)[i]| <= size
    ensures forall i :: 0 <= i < |Chunks(text, size)| - 1 ==> |Chunks(text, size)[i]| == size
  {
    ChunksConcat(text, size);
    ChunkSizes(text, size);
  }

  function Parts(text: Bytes): seq<Bytes> { Chunks(text, WS_STATE_CHUNK_CHARS) }

  predicate IsChunkOf(m: Chunk, text: Bytes)
  {
    m.total == |Parts(text)| && m.index < m.total && m.data == Parts(text)[m.index]
  }

  function AllIndices(n: nat): (r: set<nat>)
    ensures forall i: nat :: i in r <==> i < n
  {
    if n == 0 then {} else AllIndices(n - 1) + {n - 1}
  }

  lemma {:induction false} AllIndicesSize(n: nat)
    ensures |AllIndices(n)| == n
  {
    if n > 0 {
      AllIndicesSize(n - 1);
    }
  }

  /** The indices of `id` that arrived since its last assembly or removal. */
  function Arrived(events: seq<Event>, id: string, n: nat): set<nat>
  {
    if events == [] then {}
    else
      var before := Arrived(events[..|events| - 1], id, n);
      match events[|events| - 1]
      case Pushed(m) => if m.id == id then before + {m.index} else before
      case Polled(i, _) => if i == id && before == AllIndices(n) then {} else before
      case Expired(i) => if i == id then {} else before
      case CeilingAdvertised(_) => before
  }

  /** Everything sent under `id` is a chunk of `text`, its waiter asks for the
      sender's count, and no advertisement drops the ceiling below the text. */
  predicate Conforms(e: Event, id: string, text: Bytes)
  {
    match e
    case Pushed(m) => m.id == id ==> IsChunkOf(m, text)
    case Polled(i, total) => i == id ==> total == |Parts(text)|
    case Expired(_) => true
    case CeilingAdvertised(a) => AdvertisedCeiling(|text|, a) >= |text|
  }

  predicate AllConform(events: seq<Event>, id: string, text: Bytes)
  {
    forall k :: 0 <= k < |events| ==> Conforms(events[k], id, text)
  }

  predicate EntryHolds(e: Entry, text: Bytes, have: set<nat>)
  {
    && e.total == |Parts(text)| == |e.parts| && have <= AllIndices(e.total) && e.have == |have|
    && forall i: nat :: i < e.total ==> e.parts[i] == if i in have then Some(Parts(text)[i]) else None
  }

  /** The session holds exactly the chunks of `text` whose index is in `have`. */
  predicate Holds(s: Inbox, id: string, text: Bytes, have: set<nat>)
  {
    && (id !in s.entries ==> have == {})
    && (id in s.entries ==> EntryHolds(s.entries[id], text, have))
  }

  /** And the ceiling leaves room for the whole text. */
  predicate Carries(s: Inbox, id: string, text: Bytes, have: set<nat>)
  {
    |text| <= s.ceiling && Holds(s, id, text, have)
  }

  lemma {:induction false} StoredBelow(parts: seq<Option<Bytes>>, full: seq<Bytes>)
    requires |parts| == |full|
    requires forall i :: 0 <= i < |parts| ==> parts[i].None? || parts[i] == Some(full[i])
    ensures StoredBytes(parts) <= |Concat(full)|
  {
    if parts != [] {
      StoredBelow(parts[1..], full[1..]);
    }
  }

  lemma FitsBelowCeiling(parts: seq<Option<Bytes>>, i: nat, text: Bytes)
    requires |parts| == |Parts(text)| && i < |parts| && parts[i].None?
    requires forall j :: 0 <= j < |parts| ==> parts[j].None? || parts[j] == Some(Parts(text)[j])
    ensures StoredBytes(parts) + |Parts(text)[i]| <= |text|
    ensures |Parts(text)[i]| <= WS_STATE_CHUNK_CHARS
  {
    ChunksRebuild(text, WS_STATE_CHUNK_CHARS);
    StoredUpdate(parts, i, Parts(text)[i]);
    StoredBelow(parts[i := Some(Parts(text)[i])], Parts(text));
  }

  lemma PushCarries(s: Inbox, m: Chunk, text: Bytes, have: set<nat>)
    requires Carries(s, m.id, text, have) && IsChunkOf(m, text)
    ensures Push(s, m).1 == Accepted
    ensures Carries(Push(s, m).0, m.id, text, have + {m.index})
  {
    PushHolds(s, m, text, have);
  }

  lemma EntryGains(e: Entry, i: nat, text: Bytes, have: set<nat>)
    requires EntryHolds(e, text, have) && i < e.total
    ensures e.parts[i].None? ==> EntryHolds(e.(parts := e.parts[i := Some(Parts(text)[i])], have := e.have + 1), text, have + {i})
    ensures e.parts[i].Some? ==> have + {i} == have
  {
    if e.parts[i].None? { assert |have + {i}| == |have| + 1; }
  }

  lemma EntryForHolds(s: Inbox, m: Chunk, text: Bytes, have: set<nat>)
    requires Holds(s, m.id, text, have) && IsChunkOf(m, text)
    ensures EntryHolds(EntryFor(s, m.id, m.total), text, have) && |m.data| <= WS_STATE_CHUNK_CHARS
  {
    ChunksRebuild(text, WS_STATE_CHUNK_CHARS);
  }

  lemma StoredFits(e: Entry, i: nat, text: Bytes, have: set<nat>)
    requires EntryHolds(e, text, have) && i < e.total && e.parts[i].None?
    ensures StoredBytes(e.parts) + |Parts(text)[i]| <= |text|
  {
    FitsBelowCeiling(e.parts, i, text);
  }

  /** Under any ceiling a chunk of the text is accepted and adds its index, or
      the pieces collected so far are dropped with it. */
  lemma PushHolds(s: Inbox, m: Chunk, text: Bytes, have: set<nat>)
    requires Holds(s, m.id, text, have) && IsChunkOf(m, text)
    ensures Push(s, m).1 in {Accepted, OverCeiling} && (|text| <= s.ceiling ==> Push(s, m).1 == Accepted)
    ensures Push(s, m).1 == Accepted ==> Holds(Push(s, m).0, m.id, text, have + {m.index})
    ensures Push(s, m).1 == OverCeiling ==> Push(s, m).0.entries == s.entries - {m.id}
  {
    var e := EntryFor(s, m.id, m.total);
    EntryForHolds(s, m, text, have);
    EntryGains(e, m.index, text, have);
    if e.parts[m.index].None? { StoredFits(e, m.index, text, have); }
  }

  lemma PollHolds(s: Inbox, id: string, text: Bytes, have: set<nat>)
    requires text != [] && Holds(s, id, text, have)
    ensures var n := |Parts(text)|;
      && (have == AllIndices(n) ==> Poll(s, id, n) == (Without(s, id), Assembled(text)))
      && (have != AllIndices(n) ==> Poll(s, id, n).1.Waiting? && Holds(Poll(s, id, n).0, id, text, have))
  {
    var n := |Parts(text)|;
    ChunksRebuild(text, WS_STATE_CHUNK_CHARS);
    AllIndicesSize(n);
    assert 0 in AllIndices(n);
    if have == AllIndices(n) {
      forall i: nat | i < n ensures s.entries[id].parts[i] == Some(Parts(text)[i]) { assert i in AllIndices(n); }
      assert Values(s.entries[id].parts) == Parts(text);
    } else if id in s.entries {
      SubsetSize(have, AllIndices(n));
    }
  }

  lemma SubsetSize(a: set<nat>, b: set<nat>)
    requires a <= b && a != b
    ensures |a| < |b|
  {
    var x :| x in b && x !in a;
    assert a <= b - {x};
    SubsetLe(a, b - {x});
  }

  lemma {:induction false} SubsetLe(a: set<nat>, b: set<nat>)
    requires a <= b
    ensures |a| <= |b|
  {
    if a != {} {
      var x :| x in a;
      SubsetLe(a - {x}, b - {x});
    }
  }

  predicate Touches(e: Event, id: string)
  {
    match e
    case Pushed(m) => m.id == id
    case Polled(i, _) => i == id
    case Expired(i) => i == id
    case CeilingAdvertised(_) => false
  }

  predicate SameEntry(s: Inbox, s': Inbox, id: string)
  {
    (id in s'.entries <==> id in s.entries) && (id in s.entries ==> s'.entries[id] == s.entries[id])
  }

  lemma OtherPush(s: Inbox, m: Chunk, id: string)
    requires m.id != id
    ensures SameEntry(s, Push(s, m).0, id) && Push(s, m).0.ceiling == s.ceiling
  {
  }

  lemma OtherPoll(s: Inbox, i: string, total: nat, id: string)
    requires i != id
    ensures SameEntry(s, Poll(s, i, total).0, id) && Poll(s, i, total).0.ceiling == s.ceiling
  {
  }

  lemma SameEntryHolds(s: Inbox, s': Inbox, id: string, text: Bytes, have: set<nat>)
    requires Holds(s, id, text, have) && SameEntry(s, s', id)
    ensures Holds(s', id, text, have)
  {
  }

  lemma OthersDoNotTouch(s: Inbox, e: Event, id: string, text: Bytes, have: set<nat>)
    requires Holds(s, id, text, have) && !Touches(e, id)
    ensures Holds(Step(s, e), id, text, have)
    ensures Conforms(e, id, text) && |text| <= s.ceiling ==> |text| <= Step(s, e).ceiling
  {
    match e {
      case Pushed(m) => OtherPush(s, m, id);
      case Polled(i, total) => OtherPoll(s, i, total, id);
      case _ =>
    }
    SameEntryHolds(s, Step(s, e), id, text, have);
  }

  lemma {:induction false} RunCarries(s: Inbox, id: string, text: Bytes, events: seq<Event>)
    requires text != [] && Carries(s, id, text, {}) && AllConform(events, id, text)
    ensures Carries(After(s, events), id, text, Arrived(events, id, |Parts(text)|))
  {
    if events != [] {
      var front, e := events[..|events| - 1], events[|events| - 1];
      RunCarries(s, id, text, front);
      assert Conforms(e, id, text);
      var mid, have := After(s, front), Arrived(front, id, |Parts(text)|);
      match e {
        case Pushed(m) =>
          if m.id == id { PushCarries(mid, m, text, have); } else { OthersDoNotTouch(mid, e, id, text, have); }
        case Polled(i, _) =>
          if i == id { PollHolds(mid, id, text, have); } else { OthersDoNotTouch(mid, e, id, text, have); }
        case Expired(i) =>
          if i != id { OthersDoNotTouch(mid, e, id, text, have); }
        case CeilingAdvertised(_) => OthersDoNotTouch(mid, e, id, text, have);
      }
    }
  }

  /** The round trip. Whatever else happens in the session, no chunk of `text`
      is rejected, and a poll yields the text exactly when every index has
      arrived since the last assembly; before that it yields nothing. */
  lemma ChunkRoundTrip(s: Inbox, id: string, text: Bytes, events: seq<Event>, k: nat)
    requires text != [] && |text| <= s.ceiling
    requires id !in s.entries || exists g: nat :: s.entries[id] == Untouched(|Parts(text)|, g)
    requires AllConform(events, id, text) && k < |events|
    ensures var before := After(s, events[..k]);
      var all := Arrived(events[..k], id, |Parts(text)|) == AllIndices(|Parts(text)|);
      match events[k]
      case Pushed(m) => m.id == id ==> Push(before, m).1 == Accepted
      case Polled(i, total) =>
        i == id ==> if all then Poll(before, i, total).1 == Assembled(text) else Poll(before, i, total).1.Waiting?
      case _ => true
  {
    RunCarries(s, id, text, events[..k]);
    var before, have := After(s, events[..k]), Arrived(events[..k], id, |Parts(text)|);
    assert Conforms(events[k], id, text);
    match events[k] {
      case Pushed(m) => if m.id == id { PushCarries(before, m, text, have); }
      case Polled(i, total) => if i == id { PollHolds(before, id, text, have); }
      case _ =>
    }
  }

  // ---- the session's methods ----

  class SessionInbox {
    var cloudWsMaxBytes: nat
    var inbound: map<string, Entry>
    var nextNotify: nat

    function View(): Inbox reads this { Inbox(cloudWsMaxBytes, inbound, nextNotify) }

    constructor ()
      ensures View() == Inbox(0x4000_0000, map[], 0) && InboxOk(View())
    {
      cloudWsMaxBytes, inbound, nextNotify := WS_HARD_MAX_BYTES, map[], 0;
    }

    method EntryOrInsert(id: string, total: nat) returns (e: Entry)
      modifies this
      ensures e == EntryFor(old(View()), id, total)
      ensures View() == WithEntry(old(View()), id, e)
      ensures id !in old(inbound) ==> e.notify == old(nextNotify) < nextNotify && e.have == 0 && e.total == total
    {
      if id !in inbound {
        inbound := inbound[id := Untouched(total, nextNotify)];
        nextNotify := nextNotify + 1;
      }
      e := inbound[id];
      assert inbound == inbound[id := e];
    }

    method PushInboundSplitChunk(m: Chunk) returns (verdict: Verdict)
      requires InboxOk(View())
      modifies this
      ensures InboxOk(View())
      ensures View() == Push(old(View()), m).0 && verdict == Push(old(View()), m).1
      ensures verdict == BadIndex <==> m.index >= m.total
      ensures verdict == PayloadTooLarge <==> m.index < m.total && |m.data| > 787_456
      ensures verdict == TotalMismatch <==>
        m.index < m.total && |m.data| <= 787_456 && m.id in old(inbound) && old(inbound)[m.id].total != m.total
      ensures verdict in {BadIndex, PayloadTooLarge, TotalMismatch} ==> inbound == old(inbound)
      ensures verdict == OverCeiling ==> inbound == old(inbound) - {m.id} && |m.data| <= 787_456
      ensures verdict == Accepted ==> m.id in inbound && inbound[m.id].total == m.total && inbound[m.id].parts[m.index].Some?
      ensures verdict == OverCeiling || (verdict == Accepted && !(m.id in old(inbound) && old(inbound)[m.id].parts[m.index].Some?)) ==>
        (verdict == OverCeiling <==>
          (if m.id in old(inbound) then StoredBytes(old(inbound)[m.id].parts) else 0) + |m.data| > cloudWsMaxBytes)
      ensures verdict == Accepted && !(m.id in old(inbound) && old(inbound)[m.id].parts[m.index].Some?) ==>
        inbound[m.id].parts[m.index] == Some(m.data)
    {
      StepKeepsOk(View(), Pushed(m));
      UntouchedOk(m.total, nextNotify);
      if m.total == 0 || m.index >= m.total {
        return BadIndex;
      }
      if |m.data| > WS_STATE_CHUNK_CHARS + 1024 {
        return PayloadTooLarge;
      }
      ghost var before := View();
      var entry := EntryOrInsert(m.id, m.total);
      if entry.total != m.total {
        assert inbound == before.entries;
        return TotalMismatch;
      }
      if entry.parts[m.index].None? {
        var nbytes := StoredBytes(entry.parts) + |m.data|;
        if nbytes > cloudWsMaxBytes {
          inbound := inbound - {m.id};
          assert inbound == before.entries - {m.id};
          return OverCeiling;
        }
        assert before.entries[m.id := entry][m.id := entry.(parts := entry.parts[m.index := Some(m.data)], have := entry.have + 1)]
            == before.entries[m.id := entry.(parts := entry.parts[m.index := Some(m.data)], have := entry.have + 1)];
        inbound := inbound[m.id := entry.(parts := entry.parts[m.index := Some(m.data)], have := entry.have + 1)];
      }
      return Accepted;
    }

    method TakeCompleteInboundSplitState(id: string, total: nat) returns (text: Option<Bytes>)
      requires InboxOk(View())
      modifies this`inbound
      ensures InboxOk(View())
      ensures Ready(old(View()), id, total) ==>
        && View() == Without(old(View()), id)
        && (forall i :: 0 <= i < total ==> old(inbound[id]).parts[i].Some?)
        && text == Some(Concat(Values(old(inbound[id]).parts)))
      ensures !Ready(old(View()), id, total) ==> View() == old(View()) && text == None
    {
      if id !in inbound || inbound[id].total != total || inbound[id].have != total {
        return None;
      }
      var entry := inbound[id];
      AllFilled(entry);
      inbound := inbound - {id};
      var out: Bytes := [];
      var i := 0;
      while i < |entry.parts|
        invariant i <= |entry.parts|
        invariant out == Concat(Values(entry.parts)[..i]) && View() == Without(old(View()), id)
      {
        if entry.parts[i].None? {
          return None;
        }
        ConcatSnoc(Values(entry.parts)[..i], entry.parts[i].value);
        assert Values(entry.parts)[..i + 1] == Values(entry.parts)[..i] + [entry.parts[i].value];
        out := out + entry.parts[i].value;
        i := i + 1;
      }
      assert Values(entry.parts)[..i] == Values(entry.parts);
      return Some(out);
    }

    /** The locked part of one turn of `wait_inbound_split_state`. */
    method PollInboundSplitState(id: string, total: nat) returns (r: PollResult)
      requires InboxOk(View())
      modifies this
      ensures InboxOk(View())
      ensures View() == Poll(old(View()), id, total).0 && r == Poll(old(View()), id, total).1
      ensures r.Assembled? <==>
        id in old(inbound) && old(inbound)[id].total == total && forall i :: 0 <= i < total ==> old(inbound)[id].parts[i].Some?
      ensures r.Assembled? ==> id !in inbound
      ensures r == PollMismatch <==> id in old(inbound) && old(inbound)[id].total != total
      ensures r.Waiting? ==> id in inbound && inbound[id].total == total && inbound[id].notify == r.notify
    {
      StepKeepsOk(View(), Polled(id, total));
      if id in inbound { AllFilled(inbound[id]); }
      ghost var before := View();
      var assembled := TakeCompleteInboundSplitState(id, total);
      if assembled.Some? {
        return Assembled(assembled.value);
      }
      var entry := EntryOrInsert(id, total);
      if entry.total != total {
        assert inbound == before.entries;
        return PollMismatch;
      }
      return Waiting(entry.notify);
    }

    method ApplyCloudWsMaxBytes(advertised: Option<nat>)
      requires InboxOk(View())
      modifies this`cloudWsMaxBytes
      ensures InboxOk(View()) && View() == Step(old(View()), CeilingAdvertised(advertised))
      ensures advertised in {None, Some(0)} ==> cloudWsMaxBytes == old(cloudWsMaxBytes)
      ensures advertised !in {None, Some(0)} ==>
        cloudWsMaxBytes == if advertised.value > 0x4000_0000 then 0x4000_0000 else advertised.value
    {
      if advertised.None? || advertised.value == 0 {
        return;
      }
      var capped := Min(advertised.value, WS_HARD_MAX_BYTES);
      if capped != cloudWsMaxBytes {
        cloudWsMaxBytes := capped;
      }
    }
  }

  lemma AllFilled(e: Entry)
    requires EntryOk(e)
    ensures e.have == e.total <==> forall i :: 0 <= i < |e.parts| ==> e.parts[i].Some?
  {
    AllIndicesSize(e.total);
    if e.have == e.total {
      if FilledIndices(e.parts) != AllIndices(e.total) {
        SubsetSize(FilledIndices(e.parts), AllIndices(e.total));
      }
      forall i | 0 <= i < |e.parts| ensures e.parts[i].Some? { assert i in FilledIndices(e.parts); }
    }
    if forall i :: 0 <= i < |e.parts| ==> e.parts[i].Some? {
      assert FilledIndices(e.parts) == AllIndices(e.total);
    }
  }

  // ---- the sender ----

  datatype SplitResult = SplitResult(id: string, state: Bytes, content: Bytes, promptTokens: nat, completionTokens: nat)

  datatype Frame =
    | TooLongError(id: string)
    | Inline(result: SplitResult)
    | ChunkFrame(chunk: Chunk, isFinal: bool, content: Bytes, promptTokens: nat, completionTokens: nat)

  function ChunkFrameAt(r: SplitResult, i: nat): Frame
    requires i < |Parts(r.state)|
  {
    var last := i + 1 == |Parts(r.state)|;
    ChunkFrame(Chunk(r.id, i, |Parts(r.state)|, Parts(r.state)[i]), last,
      if last then r.content else [], if last then r.promptTokens else 0, if last then r.completionTokens else 0)
  }

  /** Each frame a conforming receiver can accept; the text's bytes appear once,
      in index order; only the last frame carries the answer. */
  method SendInvokeSplitResult(ceiling: nat, r: SplitResult) returns (frames: seq<Frame>)
    ensures |r.state| > ceiling ==> frames == [TooLongError(r.id)]
    ensures |r.state| <= ceiling && |r.state| <= 786_432 ==> frames == [Inline(r)]
    ensures |r.state| <= ceiling && |r.state| > 786_432 ==>
      && |frames| == |Parts(r.state)| >= 2
      && (forall i :: 0 <= i < |frames| ==>
          frames[i].ChunkFrame? && IsChunkOf(frames[i].chunk, r.state) && frames[i].chunk.id == r.id && frames[i].chunk.index == i)
      && (forall i :: 0 <= i < |frames| ==> (frames[i].isFinal <==> i == |frames| - 1))
      && Concat(seq(|frames|, i requires 0 <= i < |frames| && frames[i].ChunkFrame? => frames[i].chunk.data)) == r.state
      && (forall i :: 0 <= i < |frames| - 1 ==> |frames[i].chunk.data| == 786_432)
      && frames[|frames| - 1].content == r.content
      && frames[|frames| - 1].promptTokens == r.promptTokens && frames[|frames| - 1].completionTokens == r.completionTokens
      && (forall i :: 0 <= i < |frames| - 1 ==>
          frames[i].content == [] && frames[i].promptTokens == 0 && frames[i].completionTokens == 0)
  {
    if |r.state| > ceiling {
      return [TooLongError(r.id)];
    }
    if |r.state| <= WS_STATE_INLINE_MAX {
      return [Inline(r)];
    }
    ChunksRebuild(r.state, WS_STATE_CHUNK_CHARS);
    var parts := Parts(r.state);
    if |parts| < 2 {
      assert false;
    }
    frames := [];
    var i := 0;
    while i < |parts|
      invariant i <= |parts| && |frames| == i
      invariant forall j :: 0 <= j < i ==> frames[j] == ChunkFrameAt(r, j)
    {
      frames := frames + [ChunkFrameAt(r, i)];
      i := i + 1;
    }
    assert seq(|frames|, j requires 0 <= j < |frames| && frames[j].ChunkFrame? => frames[j].chunk.data) == parts;
  }
}
