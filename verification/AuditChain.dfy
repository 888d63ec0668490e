// The audit trail of dbs/audit.py: events that finish once, sealing in batches into a hash chain,
// and the check of the chain.  The hash over the canonical text is a function argument.
module AuditChain {
  import opened Wrappers

  const ACTION_MAX: nat := 64
  const TARGET_MAX: nat := 1024
  const DETAIL_MAX: nat := 4000
  const ADDRESS_MAX: nat := 64
  const ERROR_CODE_MAX: nat := 64
  const SUBJECT_MAX: nat := 64
  const SEAL_BATCH: nat := 200

  datatype Status = Queued | Running | Succeeded | Failed

  predicate Finished(status: Status) {
    status.Succeeded? || status.Failed?
  }

  // The chained fields of an event.
  datatype Content = Content(action: string, target: string, detail: string, data: string, status: Status, errorCode: string, subject: string,
                             remoteAddr: string, succeeded: bool, startedAt: Option<nat>, finishedAt: Option<nat>, createdAt: nat)

  // A row; the chain index and hash are set together when it is sealed.
  datatype Event = Event(content: Content, seal: Option<Seal>)

  datatype Seal = Seal(index: nat, hash: string)

  function Clip(text: string, limit: nat): string {
    if |text| > limit then text[..limit] else text
  }

  // The longest beginning of a text that the column holds.
  predicate FitsColumn(kept: string, text: string, limit: nat) {
    kept <= text && |kept| <= limit && (|kept| < limit ==> kept == text)
  }

  // The empty string stands before the first link.
  const ROOT: string := ""

  // sha256 over the previous hash and the canonical text, which holds the content and the index.
  datatype Chaining = Chaining(hash: (string, Content, nat) -> string) {
    ghost predicate Injective() {
      && (forall p, c, i, q, d, j :: hash(p, c, i) == hash(q, d, j) ==> p == q && c == d && i == j)
      && (forall p, c, i :: hash(p, c, i) != ROOT)
    }

    // link
    function Link(previous: string, event: Event): string
      requires event.seal.Some?
    {
      hash(previous, event.content, event.seal.value.index)
    }
  }

  // ----- chains

  ghost predicate AllSealed(events: seq<Event>) {
    forall k :: 0 <= k < |events| ==> events[k].seal.Some?
  }

  // The hash before the k-th link.
  function HashBefore(chaining: Chaining, events: seq<Event>, k: nat): string
    requires k <= |events| && (k > 0 ==> events[k - 1].seal.Some?)
  {
    if k == 0 then ROOT else events[k - 1].seal.value.hash
  }

  // The k-th link has the next index and hashes its content and what came before.
  predicate LinkOk(chaining: Chaining, events: seq<Event>, k: nat)
    requires k < |events| && events[k].seal.Some? && (k > 0 ==> events[k - 1].seal.Some?)
  {
    events[k].seal.value.index == k + 1 && events[k].seal.value.hash == chaining.Link(HashBefore(chaining, events, k), events[k])
  }

  ghost predicate Intact(chaining: Chaining, events: seq<Event>) {
    AllSealed(events) && forall k :: 0 <= k < |events| ==> LinkOk(chaining, events, k)
  }

  function Head(chaining: Chaining, events: seq<Event>): string
    requires |events| > 0 ==> events[|events| - 1].seal.Some?
  {
    HashBefore(chaining, events, |events|)
  }

  // Two intact chains with the same head hold the same contents in the same order.
  lemma {:induction false} SameHeadSameContents(chaining: Chaining, a: seq<Event>, b: seq<Event>)
    requires chaining.Injective() && Intact(chaining, a) && Intact(chaining, b) && Head(chaining, a) == Head(chaining, b)
    ensures |a| == |b| && forall k :: 0 <= k < |a| ==> a[k].content == b[k].content
    decreases |a|
  {
    if |a| > 0 {
      assert LinkOk(chaining, a, |a| - 1);
    }
    if |b| > 0 {
      assert LinkOk(chaining, b, |b| - 1);
    }
    if |a| > 0 && |b| > 0 {
      var front, other := a[..|a| - 1], b[..|b| - 1];
      FrontIsIntact(chaining, a);
      FrontIsIntact(chaining, b);
      SameHeadSameContents(chaining, front, other);
      forall k | 0 <= k < |a| ensures a[k].content == b[k].content {
        if k < |front| {
          assert front[k] == a[k] && other[k] == b[k];
        }
      }
    }
  }

  lemma FrontIsIntact(chaining: Chaining, a: seq<Event>)
    requires Intact(chaining, a) && |a| > 0
    ensures Intact(chaining, a[..|a| - 1]) && Head(chaining, a[..|a| - 1]) == HashBefore(chaining, a, |a| - 1)
  {
    var front := a[..|a| - 1];
    forall k | 0 <= k < |front| ensures LinkOk(chaining, front, k) {
      assert LinkOk(chaining, a, k);
    }
  }

  // ----- such a hash exists

  // A text that tells where it ends.
  function Quoted(text: string): string {
    if |text| == 0 then "." else "-" + ([text[0]] + Quoted(text[1..]))
  }

  function AllQuoted(texts: seq<string>): string {
    if |texts| == 0 then "" else Quoted(texts[0]) + AllQuoted(texts[1..])
  }

  function Strokes(n: nat): string {
    seq(n, _ => '|')
  }

  function OptionalStrokes(n: Option<nat>): string {
    if n.None? then "" else Strokes(n.value + 1)
  }

  function StatusText(status: Status): string {
    match status
    case Queued => "q"
    case Running => "r"
    case Succeeded => "s"
    case Failed => "f"
  }

  function Fields(previous: string, c: Content, index: nat): seq<string> {
    [previous, c.action, c.target, c.detail, c.data, StatusText(c.status), c.errorCode, c.subject, c.remoteAddr, if c.succeeded then "t" else "f",
     OptionalStrokes(c.startedAt), OptionalStrokes(c.finishedAt), Strokes(c.createdAt), Strokes(index)]
  }

  function SomeChaining(): Chaining {
    Chaining((previous: string, content: Content, index: nat) => AllQuoted(Fields(previous, content, index)))
  }

  lemma {:induction false} QuotedUnique(s: string, t: string, x: string, y: string)
    requires Quoted(s) + x == Quoted(t) + y
    ensures s == t && x == y
  {
    assert (Quoted(s) + x)[0] == Quoted(s)[0] && (Quoted(t) + y)[0] == Quoted(t)[0];
    if |s| > 0 {
      assert (Quoted(s) + x)[1] == s[0] && (Quoted(t) + y)[1] == t[0];
      assert (Quoted(s) + x)[2..] == Quoted(s[1..]) + x && (Quoted(t) + y)[2..] == Quoted(t[1..]) + y;
      QuotedUnique(s[1..], t[1..], x, y);
      assert s == [s[0]] + s[1..] && t == [t[0]] + t[1..];
    } else {
      assert (Quoted(s) + x)[1..] == x && (Quoted(t) + y)[1..] == y;
    }
  }

  lemma {:induction false} AllQuotedUnique(s: seq<string>, t: seq<string>)
    requires |s| == |t| && AllQuoted(s) == AllQuoted(t)
    ensures s == t
  {
    hide Quoted;
    if |s| > 0 {
      QuotedUnique(s[0], t[0], AllQuoted(s[1..]), AllQuoted(t[1..]));
      AllQuotedUnique(s[1..], t[1..]);
      assert s == [s[0]] + s[1..] && t == [t[0]] + t[1..];
    }
  }

  lemma FieldsUnique(p: string, c: Content, i: nat, q: string, d: Content, j: nat)
    requires Fields(p, c, i) == Fields(q, d, j)
    ensures p == q && c == d && i == j
  {
    var (s, t) := (Fields(p, c, i), Fields(q, d, j));
    assert forall k :: 0 <= k < 14 ==> s[k] == t[k];
    assert s[0] == p && s[1] == c.action && s[2] == c.target && s[3] == c.detail && s[4] == c.data && s[6] == c.errorCode;
    assert |s[10]| == |t[10]| && |s[11]| == |t[11]| && |s[12]| == |t[12]| && |s[13]| == |t[13]|;
    assert s[5][0] == t[5][0] && s[9][0] == t[9][0];
  }

  lemma SomeChainingIsInjective()
    ensures SomeChaining().Injective()
  {
    hide AllQuoted, Fields;
    var hash := SomeChaining().hash;
    forall p, c, i, q, d, j | hash(p, c, i) == hash(q, d, j) ensures p == q && c == d && i == j {
      FieldCount(p, c, i);
      FieldCount(q, d, j);
      AllQuotedUnique(Fields(p, c, i), Fields(q, d, j));
      FieldsUnique(p, c, i, q, d, j);
    }
    forall p, c, i ensures hash(p, c, i) != ROOT {
      FieldCount(p, c, i);
      NotEmpty(Fields(p, c, i));
    }
  }

  lemma FieldCount(p: string, c: Content, i: nat)
    ensures |Fields(p, c, i)| == 14
  {}

  lemma NotEmpty(texts: seq<string>)
    requires |texts| > 0
    ensures AllQuoted(texts) != ROOT
  {}

  // ----- the trail

  // The pks of a run of rows that wait for their seal, in pk order, at most `limit` of them.
  function Pending(rows: map<nat, Event>, pk: nat, end: nat, limit: nat): (pks: seq<nat>)
    ensures |pks| <= limit
    decreases if pk < end then end - pk else 0
  {
    if pk >= end || limit == 0 then []
    else if pk in rows && rows[pk].seal.None? && Finished(rows[pk].content.status) then [pk] + Pending(rows, pk + 1, end, limit - 1)
    else Pending(rows, pk + 1, end, limit)
  }

  lemma {:induction false} PendingMeans(rows: map<nat, Event>, pk: nat, end: nat, limit: nat)
    ensures var pks := Pending(rows, pk, end, limit);
            && (forall i :: 0 <= i < |pks| ==> pk <= pks[i] < end && pks[i] in rows && rows[pks[i]].seal.None? && Finished(rows[pks[i]].content.status))
            && (forall i, j :: 0 <= i < j < |pks| ==> pks[i] < pks[j])
            && (|pks| < limit ==>
                  forall p :: pk <= p < end && p in rows && rows[p].seal.None? && Finished(rows[p].content.status) ==> p in pks)
    decreases if pk < end then end - pk else 0
  {
    hide Finished;
    if pk < end && limit > 0 {
      var pks := Pending(rows, pk, end, limit);
      if pk in rows && rows[pk].seal.None? && Finished(rows[pk].content.status) {
        PendingMeans(rows, pk + 1, end, limit - 1);
        var rest := Pending(rows, pk + 1, end, limit - 1);
        assert pks == [pk] + rest;
        forall i | 0 < i < |pks| ensures pks[i] == rest[i - 1] {
        }
        forall p | pk <= p < end && p in rows && rows[p].seal.None? && Finished(rows[p].content.status) && |pks| < limit
          ensures p in pks
        {
          if p == pk {
            assert pks[0] == p;
          } else {
            assert p in rest;
          }
        }
      } else {
        PendingMeans(rows, pk + 1, end, limit);
      }
    }
  }

  // The events of a list of rows.
  function EventsOf(rows: map<nat, Event>, pks: seq<nat>): (events: seq<Event>)
    requires forall i :: 0 <= i < |pks| ==> pks[i] in rows
    ensures |events| == |pks| && forall i :: 0 <= i < |pks| ==> events[i] == rows[pks[i]]
  {
    seq(|pks|, i requires 0 <= i < |pks| && pks[i] in rows => rows[pks[i]])
  }

  // The sealed rows are exactly those of the chain, in its order, and the chain is intact.
  ghost predicate Chained(chaining: Chaining, rows: map<nat, Event>, chain: seq<nat>) {
    && (forall i :: 0 <= i < |chain| ==> chain[i] in rows && Finished(rows[chain[i]].content.status))
    && (forall i, j :: 0 <= i < j < |chain| ==> chain[i] != chain[j])
    && (forall pk :: pk in rows ==> (rows[pk].seal.Some? <==> pk in chain))
    && Intact(chaining, EventsOf(rows, chain))
  }

  // Nothing sealed was changed or unsealed, and nothing finished was changed but by its seal.
  ghost predicate Keeps(rows: map<nat, Event>, chain: seq<nat>, after: map<nat, Event>, longer: seq<nat>) {
    && chain <= longer && (forall pk :: pk in chain && pk in rows ==> pk in after && after[pk] == rows[pk])
    && (forall pk :: pk in rows && Finished(rows[pk].content.status) ==> pk in after && after[pk].content == rows[pk].content)
  }

  // The same when an unsealed event may still get other data.
  ghost predicate KeepsButData(rows: map<nat, Event>, chain: seq<nat>, after: map<nat, Event>, longer: seq<nat>) {
    && chain <= longer && (forall pk :: pk in chain && pk in rows ==> pk in after && after[pk] == rows[pk])
    && (forall pk :: pk in rows && Finished(rows[pk].content.status) ==>
          pk in after && after[pk].content == rows[pk].content.(data := after[pk].content.data))
  }

  lemma KeepsTwice(a: map<nat, Event>, ca: seq<nat>, b: map<nat, Event>, cb: seq<nat>, c: map<nat, Event>, cc: seq<nat>)
    requires KeepsButData(a, ca, b, cb) && KeepsButData(b, cb, c, cc)
    ensures KeepsButData(a, ca, c, cc)
    ensures Keeps(a, ca, b, cb) && Keeps(b, cb, c, cc) ==> Keeps(a, ca, c, cc)
  {
    forall pk | pk in ca ensures pk in cb {
      var i :| 0 <= i < |ca| && ca[i] == pk;
      assert cb[i] == pk;
    }
  }

  // Rows outside the chain may change as long as they stay unsealed.
  lemma UnsealedMayChange(chaining: Chaining, rows: map<nat, Event>, chain: seq<nat>, after: map<nat, Event>)
    requires Chained(chaining, rows, chain) && rows.Keys <= after.Keys
    requires forall pk :: pk in rows && pk in chain ==> after[pk] == rows[pk]
    requires forall pk :: pk in after && pk !in chain ==> after[pk].seal.None?
    requires forall pk :: pk in rows && Finished(rows[pk].content.status) ==> after[pk].content == rows[pk].content.(data := after[pk].content.data)
    ensures Chained(chaining, after, chain) && KeepsButData(rows, chain, after, chain)
    ensures (forall pk :: pk in rows && Finished(rows[pk].content.status) ==> after[pk].content == rows[pk].content) ==>
              Keeps(rows, chain, after, chain)
  {
    assert EventsOf(after, chain) == EventsOf(rows, chain);
  }

  function Sealed(chaining: Chaining, event: Event, index: nat, previous: string): Event {
    Event(event.content, Some(Seal(index + 1, chaining.hash(previous, event.content, index + 1))))
  }

  lemma {:induction false} LinksStay(chaining: Chaining, events: seq<Event>, event: Event)
    requires Intact(chaining, events) && event.seal == Some(Seal(|events| + 1, chaining.hash(Head(chaining, events), event.content, |events| + 1)))
    ensures Intact(chaining, events + [event])
  {
    var more := events + [event];
    forall k | 0 <= k < |more| ensures LinkOk(chaining, more, k) {
      if k < |events| {
        assert LinkOk(chaining, events, k);
      }
    }
  }

  // A pending row sealed with the next index and the last hash makes the chain one longer.
  lemma OneMoreLink(chaining: Chaining, rows: map<nat, Event>, chain: seq<nat>, pk: nat, index: nat, previous: string)
    requires Chained(chaining, rows, chain) && pk in rows && rows[pk].seal.None? && Finished(rows[pk].content.status)
    requires index == |chain| && previous == Head(chaining, EventsOf(rows, chain))
    ensures var after := rows[pk := Sealed(chaining, rows[pk], index, previous)];
            && Chained(chaining, after, chain + [pk]) && Keeps(rows, chain, after, chain + [pk])
            && Sealed(chaining, rows[pk], index, previous).seal.value.hash == Head(chaining, EventsOf(after, chain + [pk]))
  {
    var after := rows[pk := Sealed(chaining, rows[pk], index, previous)];
    assert pk !in chain;
    hide Intact, Head;
    assert EventsOf(after, chain + [pk]) == EventsOf(rows, chain) + [after[pk]];
    LinksStay(chaining, EventsOf(rows, chain), after[pk]);
    HeadOfMore(chaining, EventsOf(rows, chain), after[pk]);
  }

  lemma HeadOfMore(chaining: Chaining, events: seq<Event>, event: Event)
    requires event.seal.Some?
    ensures Head(chaining, events + [event]) == event.seal.value.hash
  {}

  // ----- the operations on values, and runs of them

  // The chain lists the sealed rows in their order; the table itself has no such list.
  datatype Trail = Trail(rows: map<nat, Event>, chain: seq<nat>, nextPk: nat)

  ghost predicate Ok(chaining: Chaining, t: Trail) {
    Chained(chaining, t.rows, t.chain) && forall pk :: pk in t.rows ==> pk < t.nextPk
  }

  // Amend is what the manager does to an entry of its own: new data for a running one, or for the
  // export's before its transaction commits.
  datatype Op =
    | Record(content: Content)
    | Start(pk: nat, now: nat)
    | Close(pk: nat, status: Status, data: Option<string>, errorCode: string, detail: string, now: nat)
    | Interrupt(meant: (nat, Content) -> bool, now: nat)
    | Amend(pk: nat, onlyRunning: bool, replacement: string)
    | SealPending(limit: nat)

  predicate Unfinished(rows: map<nat, Event>, pk: nat) {
    pk in rows && !Finished(rows[pk].content.status)
  }

  predicate Amendable(rows: map<nat, Event>, pk: nat, onlyRunning: bool) {
    pk in rows && rows[pk].seal.None? && (onlyRunning ==> rows[pk].content.status.Running?)
  }

  function Rewritten(t: Trail, pk: nat, content: Content): Trail
    requires pk in t.rows
  {
    t.(rows := t.rows[pk := WithContent(t.rows[pk], content)])
  }

  function Interrupted(rows: map<nat, Event>, meant: (nat, Content) -> bool, now: nat): map<nat, Event> {
    map pk | pk in rows ::
      if Unfinished(rows, pk) && meant(pk, rows[pk].content) then WithContent(rows[pk], InterruptedContent(rows[pk].content, now))
      else rows[pk]
  }

  function Apply(chaining: Chaining, t: Trail, op: Op): Trail {
    match op
    case Record(content) => Trail(t.rows[t.nextPk := Event(content, None)], t.chain, t.nextPk + 1)
    case Start(pk, now) =>
      if Unfinished(t.rows, pk) then Rewritten(t, pk, t.rows[pk].content.(status := Running, startedAt := Some(now))) else t
    case Close(pk, status, data, errorCode, detail, now) =>
      if Unfinished(t.rows, pk) then Rewritten(t, pk, ClosedContent(t.rows[pk].content, status, data, errorCode, detail, now)) else t
    case Interrupt(meant, now) => t.(rows := Interrupted(t.rows, meant, now))
    case Amend(pk, onlyRunning, replacement) =>
      if Amendable(t.rows, pk, onlyRunning) then Rewritten(t, pk, t.rows[pk].content.(data := replacement)) else t
    case SealPending(limit) => SealEach(chaining, t, Pending(t.rows, 0, t.nextPk, limit))
  }

  function LastHash(t: Trail): string {
    if |t.chain| == 0 || t.chain[|t.chain| - 1] !in t.rows || t.rows[t.chain[|t.chain| - 1]].seal.None? then ROOT
    else t.rows[t.chain[|t.chain| - 1]].seal.value.hash
  }

  function SealNext(chaining: Chaining, t: Trail, pk: nat): Trail {
    if pk !in t.rows then t
    else t.(rows := t.rows[pk := Sealed(chaining, t.rows[pk], |t.chain|, LastHash(t))], chain := t.chain + [pk])
  }

  function SealEach(chaining: Chaining, t: Trail, pks: seq<nat>): Trail {
    if |pks| == 0 then t else SealNext(chaining, SealEach(chaining, t, pks[..|pks| - 1]), pks[|pks| - 1])
  }

  lemma LastHashIsHead(chaining: Chaining, t: Trail)
    requires Chained(chaining, t.rows, t.chain)
    ensures LastHash(t) == Head(chaining, EventsOf(t.rows, t.chain))
  {
    hide Intact;
  }

  lemma SealNextKeeps(chaining: Chaining, t: Trail, pk: nat)
    requires Ok(chaining, t) && pk in t.rows && t.rows[pk].seal.None? && Finished(t.rows[pk].content.status)
    ensures var after := SealNext(chaining, t, pk);
      && Ok(chaining, after) && Keeps(t.rows, t.chain, after.rows, after.chain) && after.chain == t.chain + [pk]
      && after.nextPk == t.nextPk && after.rows.Keys == t.rows.Keys
      && forall p :: p in t.rows ==> after.rows[p].content == t.rows[p].content && (p != pk ==> after.rows[p] == t.rows[p])
  {
    LastHashIsHead(chaining, t);
    OneMoreLink(chaining, t.rows, t.chain, pk, |t.chain|, LastHash(t));
    hide Chained, Keeps, LastHash;
  }

  lemma SealNextIs(chaining: Chaining, t: Trail, pk: nat)
    requires pk in t.rows
    ensures var (content, index) := (t.rows[pk].content, |t.chain| + 1);
      var hash := chaining.hash(LastHash(t), content, index);
      && SealNext(chaining, t, pk) == Trail(t.rows[pk := Event(content, Some(Seal(index, hash)))], t.chain + [pk], t.nextPk)
      && LastHash(SealNext(chaining, t, pk)) == hash
  {}

  // Distinct events that all wait for their seal.
  ghost predicate AllPending(rows: map<nat, Event>, pks: seq<nat>) {
    && (forall i :: 0 <= i < |pks| ==> pks[i] in rows && rows[pks[i]].seal.None? && Finished(rows[pks[i]].content.status))
    && (forall i, j :: 0 <= i < j < |pks| ==> pks[i] != pks[j])
  }

  lemma {:induction false} SealEachKeeps(chaining: Chaining, t: Trail, pks: seq<nat>)
    requires Ok(chaining, t) && AllPending(t.rows, pks)
    ensures var after := SealEach(chaining, t, pks);
      && Ok(chaining, after) && Keeps(t.rows, t.chain, after.rows, after.chain) && after.chain == t.chain + pks
      && after.nextPk == t.nextPk && after.rows.Keys == t.rows.Keys
      && (forall p :: p in t.rows ==> after.rows[p].content == t.rows[p].content)
      && (forall p :: p in t.rows && p !in pks ==> after.rows[p] == t.rows[p])
  {
    hide Ok, SealNext, Keeps, Finished;
    if |pks| == 0 {
      KeepsSelf(t.rows, t.chain);
      assert t.chain + pks == t.chain;
    } else {
      var front, last := pks[..|pks| - 1], pks[|pks| - 1];
      var middle := SealEach(chaining, t, front);
      SealEachKeeps(chaining, t, front);
      assert last !in front;
      SealNextKeeps(chaining, middle, last);
      var after := SealNext(chaining, middle, last);
      KeepsIsKeepsButData(t.rows, t.chain, middle.rows, middle.chain);
      KeepsIsKeepsButData(middle.rows, middle.chain, after.rows, after.chain);
      KeepsTwice(t.rows, t.chain, middle.rows, middle.chain, after.rows, after.chain);
      assert (t.chain + front) + [last] == t.chain + pks by { assert front + [last] == pks; }
      hide KeepsButData;
    }
  }

  lemma SealNone(chaining: Chaining, t: Trail, pks: seq<nat>)
    requires |pks| == 0
    ensures SealEach(chaining, t, pks) == t
  {}

  // Sealing one after another comes to sealing all of them.
  lemma SealStep(chaining: Chaining, t: Trail, pks: seq<nat>, i: nat)
    requires Ok(chaining, t) && AllPending(t.rows, pks) && i < |pks|
    ensures var middle := SealEach(chaining, t, pks[..i]);
      && pks[i] in middle.rows && middle.rows[pks[i]].seal.None? && Finished(middle.rows[pks[i]].content.status)
      && SealEach(chaining, t, pks[..i + 1]) == SealNext(chaining, middle, pks[i])
  {
    hide Ok, SealNext, Keeps, Finished;
    SealEachKeeps(chaining, t, pks[..i]);
    assert pks[i] !in pks[..i];
    assert pks[..i + 1][..i] == pks[..i];
  }

  lemma SealsAll(chaining: Chaining, t: Trail, limit: nat)
    ensures Apply(chaining, t, Op.SealPending(limit)) == SealEach(chaining, t, Pending(t.rows, 0, t.nextPk, limit))
  {
    hide SealEach, Pending;
  }

  lemma SealsOf(t: Trail, limit: nat)
    ensures AllPending(t.rows, Pending(t.rows, 0, t.nextPk, limit))
  {
    PendingMeans(t.rows, 0, t.nextPk, limit);
  }

  lemma KeepsSelf(rows: map<nat, Event>, chain: seq<nat>)
    ensures Keeps(rows, chain, rows, chain)
  {}

  lemma KeepsIsKeepsButData(rows: map<nat, Event>, chain: seq<nat>, after: map<nat, Event>, longer: seq<nat>)
    requires Keeps(rows, chain, after, longer)
    ensures KeepsButData(rows, chain, after, longer)
  {}

  lemma RewriteKeeps(chaining: Chaining, t: Trail, pk: nat, content: Content)
    requires Ok(chaining, t) && pk in t.rows && t.rows[pk].seal.None?
    requires Finished(t.rows[pk].content.status) ==> content == t.rows[pk].content.(data := content.data)
    ensures Ok(chaining, Rewritten(t, pk, content)) && KeepsButData(t.rows, t.chain, Rewritten(t, pk, content).rows, t.chain)
    ensures !Finished(t.rows[pk].content.status) ==> Keeps(t.rows, t.chain, Rewritten(t, pk, content).rows, t.chain)
  {
    hide Intact, Finished;
    UnsealedMayChange(chaining, t.rows, t.chain, Rewritten(t, pk, content).rows);
  }

  lemma RecordKeeps(chaining: Chaining, t: Trail, content: Content)
    requires Ok(chaining, t)
    ensures Ok(chaining, Apply(chaining, t, Op.Record(content)))
    ensures Keeps(t.rows, t.chain, Apply(chaining, t, Op.Record(content)).rows, t.chain)
  {
    hide Intact, Finished;
    UnsealedMayChange(chaining, t.rows, t.chain, Apply(chaining, t, Op.Record(content)).rows);
  }

  lemma InterruptKeeps(chaining: Chaining, t: Trail, meant: (nat, Content) -> bool, now: nat)
    requires Ok(chaining, t)
    ensures Ok(chaining, t.(rows := Interrupted(t.rows, meant, now)))
    ensures Keeps(t.rows, t.chain, Interrupted(t.rows, meant, now), t.chain)
  {
    hide Intact, InterruptedContent;
    UnsealedMayChange(chaining, t.rows, t.chain, Interrupted(t.rows, meant, now));
  }

  lemma UnfinishedIsUnsealed(chaining: Chaining, t: Trail, pk: nat)
    requires Ok(chaining, t) && Unfinished(t.rows, pk)
    ensures t.rows[pk].seal.None?
  {}

  // Every operation keeps the chain, what is sealed and what is finished.
  lemma StepKeeps(chaining: Chaining, t: Trail, op: Op)
    requires Ok(chaining, t)
    ensures Ok(chaining, Apply(chaining, t, op))
    ensures KeepsButData(t.rows, t.chain, Apply(chaining, t, op).rows, Apply(chaining, t, op).chain)
    ensures !op.Amend? ==> Keeps(t.rows, t.chain, Apply(chaining, t, op).rows, Apply(chaining, t, op).chain)
  {
    hide Ok, Keeps, KeepsButData, Finished, Rewritten, Interrupted, Pending, SealEach, ClosedContent;
    KeepsSelf(t.rows, t.chain);
    match op {
    case Record(content) =>
      RecordKeeps(chaining, t, content);
    case Start(pk, now) =>
      if Unfinished(t.rows, pk) {
        UnfinishedIsUnsealed(chaining, t, pk);
        RewriteKeeps(chaining, t, pk, t.rows[pk].content.(status := Running, startedAt := Some(now)));
        SameChain(t, pk, t.rows[pk].content.(status := Running, startedAt := Some(now)));
      }
    case Close(pk, status, data, errorCode, detail, now) =>
      if Unfinished(t.rows, pk) {
        UnfinishedIsUnsealed(chaining, t, pk);
        RewriteKeeps(chaining, t, pk, ClosedContent(t.rows[pk].content, status, data, errorCode, detail, now));
        SameChain(t, pk, ClosedContent(t.rows[pk].content, status, data, errorCode, detail, now));
      }
    case Interrupt(meant, now) =>
      InterruptKeeps(chaining, t, meant, now);
    case Amend(pk, onlyRunning, replacement) =>
      if Amendable(t.rows, pk, onlyRunning) {
        RewriteKeeps(chaining, t, pk, t.rows[pk].content.(data := replacement));
        SameChain(t, pk, t.rows[pk].content.(data := replacement));
      } else {
        KeepsIsKeepsButData(t.rows, t.chain, t.rows, t.chain);
      }
    case SealPending(limit) =>
      SealsOf(t, limit);
      SealEachKeeps(chaining, t, Pending(t.rows, 0, t.nextPk, limit));
    }
    if !op.Amend? {
      KeepsIsKeepsButData(t.rows, t.chain, Apply(chaining, t, op).rows, Apply(chaining, t, op).chain);
    }
  }

  lemma SameChain(t: Trail, pk: nat, content: Content)
    requires pk in t.rows
    ensures Rewritten(t, pk, content).chain == t.chain
  {}

  function Play(chaining: Chaining, ops: seq<Op>): Trail {
    if |ops| == 0 then Trail(map[], [], 1) else Apply(chaining, Play(chaining, ops[..|ops| - 1]), ops[|ops| - 1])
  }

  // In every run, from any moment of it to its end: the sealed rows form an intact chain, the chain
  // only grows, what was sealed is as it was, and what was finished has changed at most its data,
  // which only Amend does.
  lemma {:induction false} KeepsOverRuns(chaining: Chaining, ops: seq<Op>, i: nat)
    requires i <= |ops|
    ensures var (then_, now) := (Play(chaining, ops[..i]), Play(chaining, ops));
      && Ok(chaining, now) && KeepsButData(then_.rows, then_.chain, now.rows, now.chain)
      && ((forall k :: i <= k < |ops| ==> !ops[k].Amend?) ==> Keeps(then_.rows, then_.chain, now.rows, now.chain))
  {
    hide Apply, Keeps, KeepsButData, Chained;
    var now := Play(chaining, ops);
    if |ops| == 0 {
      EmptyIsChained(chaining);
    }
    if i == |ops| {
      assert ops[..i] == ops;
      KeepsSelf(now.rows, now.chain);
      KeepsIsKeepsButData(now.rows, now.chain, now.rows, now.chain);
      if i > 0 {
        KeepsOverRuns(chaining, ops[..i - 1], i - 1);
        StepKeeps(chaining, Play(chaining, ops[..i - 1]), ops[i - 1]);
      }
    } else {
      var front := ops[..|ops| - 1];
      assert front[..i] == ops[..i];
      var (before, middle) := (Play(chaining, ops[..i]), Play(chaining, front));
      KeepsOverRuns(chaining, front, i);
      StepKeeps(chaining, middle, ops[|ops| - 1]);
      KeepsTwice(before.rows, before.chain, middle.rows, middle.chain, now.rows, now.chain);
    }
  }

  // The flag and the time of an end agree with the status.
  predicate Agrees(c: Content) {
    (c.succeeded <==> c.status == Succeeded) && (c.status == Succeeded || c.status == Failed ==> c.finishedAt.Some?)
  }

  // In every run whose recorded contents agree so, every row does.
  lemma {:induction false} StatusesAgree(chaining: Chaining, ops: seq<Op>, pk: nat)
    requires forall k :: 0 <= k < |ops| && ops[k].Record? ==> Agrees(ops[k].content)
    requires pk in Play(chaining, ops).rows
    ensures Agrees(Play(chaining, ops).rows[pk].content)
  {
    hide Chained, Agrees, Apply;
    if |ops| > 0 {
      var (front, last) := (ops[..|ops| - 1], ops[|ops| - 1]);
      var before := Play(chaining, front);
      KeepsOverRuns(chaining, front, |front|);
      if pk in before.rows {
        StatusesAgree(chaining, front, pk);
      }
      StepAgrees(chaining, before, last, pk);
    }
  }

  lemma StepAgrees(chaining: Chaining, t: Trail, op: Op, pk: nat)
    requires Ok(chaining, t) && pk in Apply(chaining, t, op).rows
    requires op.Record? ==> Agrees(op.content)
    requires pk in t.rows ==> Agrees(t.rows[pk].content)
    ensures Agrees(Apply(chaining, t, op).rows[pk].content)
  {
    hide Ok, Pending, SealEach, Keeps, KeepsButData;
    if op.SealPending? {
      SealsOf(t, op.limit);
      SealEachKeeps(chaining, t, Pending(t.rows, 0, t.nextPk, op.limit));
    }
  }

  lemma EmptyIsChained(chaining: Chaining)
    ensures Chained(chaining, map[], [])
  {}

  class AuditTrail {
    const chaining: Chaining

    var rows: map<nat, Event>
    var nextPk: nat
    ghost var chain: seq<nat>

    ghost function Now(): Trail
      reads this
    {
      Trail(rows, chain, nextPk)
    }

    ghost predicate Valid()
      reads this
    {
      Ok(chaining, Now())
    }

    constructor (chaining: Chaining)
      ensures Valid() && Now() == Play(chaining, []) && this.chaining == chaining
    {
      this.chaining := chaining;
      rows, nextPk, chain := map[], 1, [];
    }

    // record and queue: a new row, not sealed yet.
    method Record(action: string, target: string, detail: string, data: string, status: Status, errorCode: string, remoteAddr: string,
                  subject: string, startedAt: Option<nat>, finishedAt: Option<nat>, now: nat) returns (pk: nat)
      requires Valid()
      modifies this
      ensures Valid() && chain == old(chain) && Keeps(old(rows), old(chain), rows, chain)
      ensures pk !in old(rows) && rows.Keys == old(rows).Keys + {pk} && forall p :: p in old(rows) ==> rows[p] == old(rows)[p]
      ensures rows[pk].seal.None? && var c := rows[pk].content;
        && FitsColumn(c.action, action, ACTION_MAX) && FitsColumn(c.target, target, TARGET_MAX) && FitsColumn(c.detail, detail, DETAIL_MAX)
        && c.data == data && FitsColumn(c.errorCode, errorCode, ERROR_CODE_MAX) && FitsColumn(c.subject, subject, SUBJECT_MAX)
        && FitsColumn(c.remoteAddr, remoteAddr, ADDRESS_MAX) && c.status == status && (c.succeeded <==> status == Succeeded) && c.createdAt == now
        && c.startedAt == (if status == Queued then None else if startedAt.None? then Some(now) else startedAt)
        && c.finishedAt == (if finishedAt.None? && (status == Succeeded || status == Failed) then Some(now) else finishedAt)
      ensures Now() == Apply(chaining, old(Now()), Op.Record(rows[pk].content))
    {
      pk := nextPk;
      var closed := if finishedAt.None? && Finished(status) then Some(now) else finishedAt;
      var opened_ := if startedAt.None? then Some(now) else startedAt;
      var content := Content(Clip(action, ACTION_MAX), Clip(target, TARGET_MAX), Clip(detail, DETAIL_MAX), data, status,
                             Clip(errorCode, ERROR_CODE_MAX), Clip(subject, SUBJECT_MAX), Clip(remoteAddr, ADDRESS_MAX),
                             status == Succeeded, if status.Queued? then None else opened_, closed, now);
      StepKeeps(chaining, Now(), Op.Record(content));
      rows := rows[pk := Event(content, None)];
      nextPk := nextPk + 1;
    }

    // start: a queued or running event runs from now on.
    method Start(pk: nat, now: nat) returns (started: bool)
      requires Valid()
      modifies `rows
      ensures Valid() && Keeps(old(rows), chain, rows, chain)
      ensures Now() == Apply(chaining, old(Now()), Op.Start(pk, now))
      ensures started <==> pk in old(rows) && !Finished(old(rows)[pk].content.status)
      ensures rows == if started then old(rows)[pk := Event(old(rows)[pk].content.(status := Running, startedAt := Some(now)), None)] else old(rows)
    {
      started := pk in rows && !Finished(rows[pk].content.status);
      StepKeeps(chaining, Now(), Op.Start(pk, now));
      if started {
        rows := rows[pk := WithContent(rows[pk], rows[pk].content.(status := Running, startedAt := Some(now)))];
      }
    }

    // _close: an unfinished event finishes; a finished one is left alone.
    method Close(pk: nat, status: Status, data: Option<string>, errorCode: string, detail: string, now: nat) returns (closed: bool)
      requires Valid() && Finished(status)
      modifies `rows
      ensures Valid() && Keeps(old(rows), chain, rows, chain)
      ensures Now() == Apply(chaining, old(Now()), Op.Close(pk, status, data, errorCode, detail, now))
      ensures closed <==> pk in old(rows) && !Finished(old(rows)[pk].content.status)
      ensures !closed ==> rows == old(rows)
      ensures closed ==>
        && pk in rows && rows == old(rows)[pk := rows[pk]] && rows[pk].seal.None? && var (c, before) := (rows[pk].content, old(rows)[pk].content);
        && c.status == status && (c.succeeded <==> status == Succeeded) && FitsColumn(c.errorCode, errorCode, ERROR_CODE_MAX)
        && c.finishedAt == Some(now) && c.data == (if data.Some? then data.value else before.data)
        && (if detail != "" then FitsColumn(c.detail, detail, DETAIL_MAX) else c.detail == before.detail)
        && c.action == before.action && c.target == before.target && c.subject == before.subject && c.remoteAddr == before.remoteAddr
        && c.startedAt == before.startedAt && c.createdAt == before.createdAt
    {
      closed := pk in rows && !Finished(rows[pk].content.status);
      StepKeeps(chaining, Now(), Op.Close(pk, status, data, errorCode, detail, now));
      if closed {
        rows := rows[pk := WithContent(rows[pk], ClosedContent(rows[pk].content, status, data, errorCode, detail, now))];
      }
    }

    // interrupt: every unfinished event that is meant fails as interrupted, and no other changes.
    method Interrupt(meant: (nat, Content) -> bool, now: nat) returns (count: nat)
      requires Valid()
      modifies `rows
      ensures Valid() && Keeps(old(rows), chain, rows, chain) && rows.Keys == old(rows).Keys
      ensures count == |set pk | pk in old(rows) && !Finished(old(rows)[pk].content.status) && meant(pk, old(rows)[pk].content)|
      ensures forall pk :: pk in rows ==>
        var before := old(rows)[pk].content;
        rows[pk] == if (before.status == Queued || before.status == Running) && meant(pk, before)
                    then Event(before.(status := Failed, succeeded := false, errorCode := "interrupted", finishedAt := Some(now)), None)
                    else old(rows)[pk]
      ensures Now() == Apply(chaining, old(Now()), Op.Interrupt(meant, now))
    {
      var hit := set pk | pk in rows && !Finished(rows[pk].content.status) && meant(pk, rows[pk].content);
      StepKeeps(chaining, Now(), Op.Interrupt(meant, now));
      rows := Interrupted(rows, meant, now);
      count := |hit|;
    }

    lemma NowIs()
      ensures Now() == Trail(rows, chain, nextPk) && (Valid() <==> Ok(chaining, Now()))
    {
      hide Ok;
    }

    // set_running_data, and the update of export_manager: a sealed entry is left alone.
    method Amend(pk: nat, onlyRunning: bool, data: string) returns (amended: bool)
      requires Valid()
      modifies `rows
      ensures Valid() && KeepsButData(old(rows), chain, rows, chain)
      ensures Now() == Apply(chaining, old(Now()), Op.Amend(pk, onlyRunning, data))
      ensures amended <==> pk in old(rows) && old(rows)[pk].seal.None? && (onlyRunning ==> old(rows)[pk].content.status.Running?)
      ensures rows == if amended then old(rows)[pk := Event(old(rows)[pk].content.(data := data), None)] else old(rows)
    {
      amended := Amendable(rows, pk, onlyRunning);
      StepKeeps(chaining, Now(), Op.Amend(pk, onlyRunning, data));
      if amended {
        rows := rows[pk := WithContent(rows[pk], rows[pk].content.(data := data))];
      }
    }

    // seal_pending: the next batch of finished events joins the chain in pk order.
    method SealPending(limit: nat := SEAL_BATCH) returns (count: nat)
      requires Valid()
      modifies `rows, `chain
      ensures Valid() && Keeps(old(rows), old(chain), rows, chain) && rows.Keys == old(rows).Keys
      ensures chain == old(chain) + Pending(old(rows), 0, nextPk, limit) && count == |Pending(old(rows), 0, nextPk, limit)|
      ensures forall pk :: pk in rows ==> rows[pk].content == old(rows)[pk].content
      ensures Now() == Apply(chaining, old(Now()), Op.SealPending(limit))
    {
      hide *;
      var pending := Pending(rows, 0, nextPk, limit);
      ghost var start := Now();
      NowIs();
      SealsOf(start, limit);
      var index, previous := LastLink();
      SealNone(chaining, start, pending[..0]);
      for i := 0 to |pending|
        invariant Valid() && Now() == SealEach(chaining, start, pending[..i])
        invariant index == |chain| && previous == LastHash(Now())
      {
        NowIs();
        SealStep(chaining, start, pending, i);
        previous := SealOne(pending[i], index, previous);
        index := index + 1;
      }
      assert pending[..|pending|] == pending;
      SealEachKeeps(chaining, start, pending);
      SealsAll(chaining, start, limit);
      NowIs();
      count := |pending|;
    }

    // The last sealed index and hash.
    method LastLink() returns (index: nat, previous: string)
      requires Valid()
      ensures index == |chain| && previous == LastHash(Now())
    {
      hide *;
      index, previous := 0, ROOT;
      NothingSeen();
      for pk := 0 to nextPk
        invariant LastAmong(pk, index, previous)
      {
        SeeRow(pk, index, previous);
        if pk in rows && rows[pk].seal.Some? && rows[pk].seal.value.index > index {
          index, previous := rows[pk].seal.value.index, rows[pk].seal.value.hash;
        }
      }
      AllSeen(index, previous);
    }

    // The latest link among the rows below a pk.
    ghost predicate LastAmong(pk: nat, index: nat, previous: string)
      reads this
      requires Valid()
    {
      && index <= |chain| && (forall i :: 0 <= i < |chain| && chain[i] < pk ==> i < index)
      && (if index == 0 then previous == ROOT else previous == rows[chain[index - 1]].seal.value.hash)
    }

    lemma NothingSeen()
      requires Valid()
      ensures LastAmong(0, 0, ROOT)
    {
      hide Intact;
    }

    lemma SeeRow(pk: nat, index: nat, previous: string)
      requires Valid() && LastAmong(pk, index, previous)
      ensures if pk in rows && rows[pk].seal.Some? && rows[pk].seal.value.index > index
              then LastAmong(pk + 1, rows[pk].seal.value.index, rows[pk].seal.value.hash)
              else LastAmong(pk + 1, index, previous)
    {
      if pk in rows && rows[pk].seal.Some? {
        ChainPlace(pk);
      }
      hide Intact;
    }

    lemma AllSeen(index: nat, previous: string)
      requires Valid() && LastAmong(nextPk, index, previous)
      ensures index == |chain| && previous == LastHash(Now())
    {
      assert |chain| > 0 ==> chain[|chain| - 1] < nextPk;
      hide Intact;
    }

    // A sealed row stands in the chain where its index says.
    lemma ChainPlace(pk: nat)
      requires Valid() && pk in rows && rows[pk].seal.Some?
      ensures 1 <= rows[pk].seal.value.index <= |chain| && chain[rows[pk].seal.value.index - 1] == pk
      ensures forall i :: 0 <= i < |chain| && chain[i] == pk ==> i == rows[pk].seal.value.index - 1
    {
      var i :| 0 <= i < |chain| && chain[i] == pk;
      assert LinkOk(chaining, EventsOf(rows, chain), i);
    }

    method SealOne(pk: nat, index: nat, previous: string) returns (hash: string)
      requires Valid() && pk in rows && rows[pk].seal.None? && Finished(rows[pk].content.status)
      requires index == |chain| && previous == LastHash(Now())
      modifies `rows, `chain
      ensures Valid() && Now() == SealNext(chaining, old(Now()), pk)
      ensures |chain| == |old(chain)| + 1 && hash == LastHash(Now())
    {
      var content := rows[pk].content;
      SealNextKeeps(chaining, Now(), pk);
      SealNextIs(chaining, Now(), pk);
      hide Ok, Keeps, SealNext, LastHash, Finished;
      hash := chaining.hash(previous, content, index + 1);
      rows := rows[pk := Event(content, Some(Seal(index + 1, hash)))];
      chain := chain + [pk];
    }
  }

  function WithContent(event: Event, content: Content): Event {
    event.(content := content)
  }

  function ClosedContent(content: Content, status: Status, data: Option<string>, errorCode: string, detail: string, now: nat): Content {
    content.(status := status, succeeded := status == Succeeded, errorCode := Clip(errorCode, ERROR_CODE_MAX), finishedAt := Some(now),
             data := if data.Some? then data.value else content.data,
             detail := if detail != "" then Clip(detail, DETAIL_MAX) else content.detail)
  }

  function InterruptedContent(content: Content, now: nat): Content {
    content.(status := Failed, succeeded := false, errorCode := "interrupted", finishedAt := Some(now))
  }

  // ----- verify_chain

  // The sealed rows of a table, whatever its state, by chain index and pk.
  ghost predicate Listed(rows: map<nat, Event>, pks: seq<nat>) {
    && (forall i :: 0 <= i < |pks| ==> pks[i] in rows && rows[pks[i]].seal.Some?)
    && (forall pk :: pk in rows && rows[pk].seal.Some? ==> pk in pks)
    && (forall i, j :: 0 <= i < j < |pks| ==> Before(rows, pks[i], pks[j]))
  }

  predicate Before(rows: map<nat, Event>, a: nat, b: nat) {
    && a in rows && b in rows && rows[a].seal.Some? && rows[b].seal.Some?
    && (rows[a].seal.value.index < rows[b].seal.value.index || (rows[a].seal.value.index == rows[b].seal.value.index && a < b))
  }

  // What the check reports: the first broken link, or the head of an intact chain.
  datatype ChainCheck = ChainCheck(checked: nat, head: string, brokenAt: Option<nat>, eventId: Option<nat>, unsealed: nat, unfinished: nat)

  method VerifyChain(chaining: Chaining, rows: map<nat, Event>, listed: seq<nat>) returns (check: ChainCheck)
    requires Listed(rows, listed)
    ensures check.brokenAt.None? <==> Intact(chaining, EventsOf(rows, listed))
    ensures check.brokenAt.None? ==> check.checked == |listed| && check.head == Head(chaining, EventsOf(rows, listed))
    ensures check.brokenAt.None? ==>
      && check.unsealed == |set pk | pk in rows && rows[pk].seal.None? && Finished(rows[pk].content.status)|
      && check.unfinished == |set pk | pk in rows && !Finished(rows[pk].content.status)|
    ensures check.brokenAt.Some? ==>
      && check.brokenAt.value == check.checked + 1 <= |listed| && check.eventId == Some(listed[check.checked])
      && !LinkOk(chaining, EventsOf(rows, listed), check.checked)
      && forall k :: 0 <= k < check.checked ==> LinkOk(chaining, EventsOf(rows, listed), k)
  {
    var previous, expected := ROOT, 1;
    ghost var events := EventsOf(rows, listed);
    for k := 0 to |listed|
      invariant expected == k + 1 && previous == HashBefore(chaining, events, k)
      invariant forall i :: 0 <= i < k ==> LinkOk(chaining, events, i)
    {
      var event := rows[listed[k]];
      assert events[k] == event;
      if event.seal.value.index != expected || chaining.Link(previous, event) != event.seal.value.hash {
        assert !LinkOk(chaining, events, k);
        return ChainCheck(k, "", Some(expected), Some(listed[k]), 0, 0);
      }
      previous, expected := event.seal.value.hash, expected + 1;
    }
    var waiting := set pk | pk in rows && rows[pk].seal.None? && Finished(rows[pk].content.status);
    var open := set pk | pk in rows && !Finished(rows[pk].content.status);
    check := ChainCheck(|listed|, previous, None, None, |waiting|, |open|);
  }

  // The sealed rows by index are the chain, so the check finds it intact, after any run at all.
  lemma TrailVerifies(chaining: Chaining, rows: map<nat, Event>, chain: seq<nat>)
    requires Chained(chaining, rows, chain)
    ensures Listed(rows, chain) && Intact(chaining, EventsOf(rows, chain))
  {
    forall i, j | 0 <= i < j < |chain| ensures Before(rows, chain[i], chain[j]) {
      assert LinkOk(chaining, EventsOf(rows, chain), i) && LinkOk(chaining, EventsOf(rows, chain), j);
    }
  }

  lemma RunVerifies(chaining: Chaining, ops: seq<Op>)
    ensures var now := Play(chaining, ops); Listed(now.rows, now.chain) && Intact(chaining, EventsOf(now.rows, now.chain))
  {
    hide Play, Listed, Intact;
    KeepsOverRuns(chaining, ops, |ops|);
    var now := Play(chaining, ops);
    TrailVerifies(chaining, now.rows, now.chain);
  }

  // A listing is unique, so the check sees that very chain.
  lemma {:induction false} ListingIsUnique(rows: map<nat, Event>, a: seq<nat>, b: seq<nat>)
    requires Listed(rows, a) && Listed(rows, b)
    ensures a == b
    decreases |a|
  {
    hide *;
    SameLast(rows, a, b);
    if |a| > 0 {
      WithoutLast(rows, a);
      WithoutLast(rows, b);
      ListingIsUnique(rows - {a[|a| - 1]}, a[..|a| - 1], b[..|b| - 1]);
      assert a == a[..|a| - 1] + [a[|a| - 1]];
      assert b == b[..|b| - 1] + [b[|b| - 1]];
    } else {
      assert a == [] == b;
    }
  }

  lemma SameLast(rows: map<nat, Event>, a: seq<nat>, b: seq<nat>)
    requires Listed(rows, a) && Listed(rows, b)
    ensures (|a| == 0 <==> |b| == 0) && (|a| > 0 ==> a[|a| - 1] == b[|b| - 1])
  {
    assert |b| > 0 ==> b[|b| - 1] in a;
    assert |a| > 0 ==> a[|a| - 1] in b;
    if |a| > 0 && |b| > 0 {
      LastIsLatest(rows, a, b[|b| - 1]);
      LastIsLatest(rows, b, a[|a| - 1]);
    }
  }

  lemma WithoutLast(rows: map<nat, Event>, a: seq<nat>)
    requires Listed(rows, a) && |a| > 0
    ensures Listed(rows - {a[|a| - 1]}, a[..|a| - 1])
  {
    hide Before;
    var front, last := a[..|a| - 1], a[|a| - 1];
    var rest := rows - {last};
    forall i | 0 <= i < |front| ensures front[i] in rest && rest[front[i]].seal.Some? {
      BeforeDiffers(rows, a[i], last);
    }
    forall i, j | 0 <= i < j < |front| ensures Before(rest, front[i], front[j]) {
      BeforeStays(rows, rest, a[i], a[j]);
    }
    forall pk | pk in rest && rest[pk].seal.Some? ensures pk in front {
      var i :| 0 <= i < |a| && a[i] == pk;
      assert front[i] == pk;
    }
  }

  lemma BeforeDiffers(rows: map<nat, Event>, a: nat, b: nat)
    requires Before(rows, a, b)
    ensures a != b && a in rows && rows[a].seal.Some?
  {}

  lemma BeforeStays(rows: map<nat, Event>, rest: map<nat, Event>, a: nat, b: nat)
    requires Before(rows, a, b) && a in rest && b in rest && rest[a] == rows[a] && rest[b] == rows[b]
    ensures Before(rest, a, b)
  {
  }

  lemma LastIsLatest(rows: map<nat, Event>, a: seq<nat>, pk: nat)
    requires Listed(rows, a) && pk in a
    ensures pk == a[|a| - 1] || Before(rows, pk, a[|a| - 1])
  {}
}
