/** The tamper-evident audit log: each event carries the digest of its content and of its predecessor's digest. */
module AuditChain {
  import opened Basics

  /** Everything an event says apart from its place in the chain; `details` in canonical JSON. */
  datatype Content = Content(
    eventId: string, organization: string, workspace: string, principal: string, action: string,
    resourceType: string, resourceId: string, outcome: string, occurredAt: string,
    requestId: Option<string>, sourceIp: Option<string>, userAgent: Option<string>, details: string)

  datatype Payload = Payload(sequence: int, content: Content, previousHash: Option<string>)

  datatype Event = Event(payload: Payload, eventHash: string)

  type Digest = Payload -> string

  datatype Fault = WrongSequence(at: nat) | WrongPrevious(at: nat) | WrongHash(at: nat)

  datatype Report = Report(
    valid: bool, count: nat, first: Option<int>, last: Option<int>, head: Option<string>, errors: seq<Fault>)

  function Head(events: seq<Event>): Option<string> {
    if events == [] then None else Some(events[|events| - 1].eventHash)
  }

  /** The event is at its place, points at its predecessor, and carries its own digest. */
  predicate Links(h: Digest, before: seq<Event>, e: Event) {
    e.payload.sequence == |before| && e.payload.previousHash == Head(before) && h(e.payload) == e.eventHash
  }

  ghost predicate Verified(h: Digest, events: seq<Event>) {
    forall i :: 0 <= i < |events| ==> Links(h, events[..i], events[i])
  }

  function FaultsOf(h: Digest, before: seq<Event>, e: Event): seq<Fault> {
    (if e.payload.sequence != |before| then [WrongSequence(|before|)] else [])
    + (if e.payload.previousHash != Head(before) then [WrongPrevious(|before|)] else [])
    + (if h(e.payload) != e.eventHash then [WrongHash(|before|)] else [])
  }

  function Faults(h: Digest, events: seq<Event>): seq<Fault> {
    if events == [] then []
    else
      var n := |events| - 1;
      Faults(h, events[..n]) + FaultsOf(h, events[..n], events[n])
  }

  lemma {:induction false} VerifiedSplits(h: Digest, events: seq<Event>, e: Event)
    ensures Verified(h, events + [e]) <==> Verified(h, events) && Links(h, events, e)
  {
    var more := events + [e];
    assert more[..|events|] == events;
    assert forall i :: 0 <= i <= |events| ==> more[..i] == events[..i];
    if Verified(h, more) {
      forall i | 0 <= i < |events| ensures Links(h, events[..i], events[i]) { assert Links(h, more[..i], more[i]); }
      assert Links(h, more[..|events|], more[|events|]);
    }
    if Verified(h, events) && Links(h, events, e) {
      forall i | 0 <= i < |more| ensures Links(h, more[..i], more[i]) {
        if i < |events| { assert Links(h, events[..i], events[i]); }
      }
    }
  }

  lemma {:induction false} NoFaultsMeansVerified(h: Digest, events: seq<Event>)
    ensures Faults(h, events) == [] <==> Verified(h, events)
  {
    if events != [] {
      var n := |events| - 1;
      NoFaultsMeansVerified(h, events[..n]);
      VerifiedSplits(h, events[..n], events[n]);
      assert events[..n] + [events[n]] == events;
    }
  }

  /** Every prefix of a verified chain verifies; so a chain cut short is not detected from the inside. */
  lemma PrefixesVerify(h: Digest, events: seq<Event>, k: nat)
    requires Verified(h, events) && k <= |events|
    ensures Verified(h, events[..k])
  {
    forall i | 0 <= i < k ensures Links(h, events[..k][..i], events[..k][i]) {
      assert events[..k][..i] == events[..i];
    }
  }

  ghost predicate Collision(h: Digest) { exists p, q :: p != q && h(p) == h(q) }

  /** The head hash commits to the whole history: two verified chains with the same head are the same, event for
      event, or else exhibit two different payloads with one digest. */
  lemma {:induction false} HeadCommits(h: Digest, a: seq<Event>, b: seq<Event>)
    requires Verified(h, a) && Verified(h, b) && a != [] && b != []
    requires Head(a) == Head(b)
    ensures a == b || Collision(h)
    decreases |a|
  {
    var m, n := |a| - 1, |b| - 1;
    assert Links(h, a[..m], a[m]) && Links(h, b[..n], b[n]);
    if a[m].payload != b[n].payload {
      assert h(a[m].payload) == h(b[n].payload);
    } else {
      assert m == n;
      PrefixesVerify(h, a, m);
      PrefixesVerify(h, b, n);
      if m > 0 { HeadCommits(h, a[..m], b[..n]); }
      assert a == a[..m] + [a[m]] && b == b[..n] + [b[n]];
    }
  }

  /** Changing, inserting, dropping or reordering anything under an unchanged head is detected. */
  lemma TamperingIsDetected(h: Digest, original: seq<Event>, altered: seq<Event>)
    requires Verified(h, original) && altered != original && altered != [] && original != []
    requires Head(altered) == Head(original) && !Collision(h)
    ensures !Verified(h, altered)
  {
    if Verified(h, altered) { HeadCommits(h, original, altered); }
  }

  lemma NoFaultsYet(h: Digest, events: seq<Event>)
    ensures Faults(h, events[..0]) == []
  {
  }

  lemma FaultsStep(h: Digest, events: seq<Event>, i: nat)
    requires i < |events|
    ensures var e := events[i];
      Faults(h, events[..i + 1]) == Faults(h, events[..i])
        + (if e.payload.sequence != i then [WrongSequence(i)] else [])
        + (if e.payload.previousHash != Head(events[..i]) then [WrongPrevious(i)] else [])
        + (if h(e.payload) != e.eventHash then [WrongHash(i)] else [])
    ensures Head(events[..i + 1]) == Some(events[i].eventHash)
  {
    assert events[..i + 1][..i] == events[..i];
  }

  lemma SequencesAreIndices(h: Digest, events: seq<Event>)
    requires Verified(h, events) && events != []
    ensures events[0].payload.sequence == 0 && events[|events| - 1].payload.sequence == |events| - 1
  {
    assert Links(h, events[..0], events[0]);
    assert Links(h, events[..|events| - 1], events[|events| - 1]);
  }

  class AuditChain {
    const hash: Digest
    var events: seq<Event>

    constructor (hash: Digest, events: seq<Event>)
      ensures this.events == events && this.hash == hash
    {
      this.hash := hash;
      this.events := events;
    }

    method Append(content: Content) returns (event: Event)
      modifies this
      ensures events == old(events) + [event] && event.payload.content == content
      ensures Links(hash, old(events), event)
      ensures Verified(hash, old(events)) <==> Verified(hash, events)
    {
      var previous := if events != [] then Some(events[|events| - 1].eventHash) else None;
      var payload := Payload(|events|, content, previous);
      event := Event(payload, hash(payload));
      VerifiedSplits(hash, events, event);
      events := events + [event];
    }

    method Verify() returns (r: Report)
      ensures r.valid <==> Verified(hash, events)
      ensures r.errors == Faults(hash, events)
      ensures r.count == |events| && r.head == Head(events)
      ensures r.first == if events == [] then None else Some(events[0].payload.sequence)
      ensures r.last == if events == [] then None else Some(events[|events| - 1].payload.sequence)
      ensures r.valid && events != [] ==> r.first == Some(0) && r.last == Some(|events| - 1)
    {
      hide Verified, Links, Faults, FaultsOf;
      NoFaultsYet(hash, events);
      var errors: seq<Fault>, previous: Option<string> := [], None;
      for index := 0 to |events|
        invariant errors == Faults(hash, events[..index])
        invariant previous == Head(events[..index])
      {
        var event := events[index];
        FaultsStep(hash, events, index);
        if event.payload.sequence != index {
          errors := errors + [WrongSequence(index)];
        }
        if event.payload.previousHash != previous {
          errors := errors + [WrongPrevious(index)];
        }
        if hash(event.payload) != event.eventHash {
          errors := errors + [WrongHash(index)];
        }
        previous := Some(event.eventHash);
      }
      assert events[..|events|] == events;
      NoFaultsMeansVerified(hash, events);
      r := Report(errors == [], |events|,
        if events != [] then Some(events[0].payload.sequence) else None,
        if events != [] then Some(events[|events| - 1].payload.sequence) else None, previous, errors);
      if r.valid && events != [] { SequencesAreIndices(hash, events); }
    }
  }
}
