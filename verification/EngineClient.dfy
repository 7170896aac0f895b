/** The desktop client's connection and request correlation (apps/desktop/lib/ipc/engine_client.dart). */
module EngineClient {
  import opened Domain
  import opened Text
  import opened Utf8
  import opened Framing

  // ----- The client -----

  /** What a line turns out to be once parsed. */
  datatype Inbound = Malformed | Event | UndecodableEvent | Reply(id: string, decodable: bool) | Unrecognized

  /** How a request came to its end. */
  datatype Outcome = Answered | BadResponse | Disconnected | NotWritten | TimedOut

  datatype Settlement = Settlement(id: string, outcome: Outcome)

  /** What came of the greeting. */
  datatype Greeting = SameVersion | OtherVersion | VersionError | OtherError | NoAnswer

  datatype Connection = Down | Connecting | Up | Incompatible

  function IssuedIds(n: nat): set<string> {
    set k | 0 <= k < n :: Decimal(k)
  }

  function SettledIds(settled: seq<Settlement>): set<string> {
    set s | s in settled :: s.id
  }

  class Client {
    const trim: string -> string
    const parse: string -> Inbound
    const minBackoff: nat
    const maxBackoff: nat

    var hasSocket: bool
    var running: bool
    var state: Connection
    var readBuffer: string
    var nextRequestId: nat
    var backoff: nat
    var pending: set<string>
    var events: nat
    /** Every line handed to `HandleLine` on this connection, and every request's end. */
    ghost var handed: seq<string>
    ghost var settled: seq<Settlement>

    constructor (trim: string -> string, parse: string -> Inbound, minBackoff: nat, maxBackoff: nat)
      requires minBackoff <= maxBackoff
      ensures Valid() && pending == {} && settled == [] && nextRequestId == 0 && !running && !hasSocket
    {
      this.trim, this.parse, this.minBackoff, this.maxBackoff := trim, parse, minBackoff, maxBackoff;
      hasSocket, running, state := false, false, Down;
      readBuffer, nextRequestId, backoff, pending, events := "", 0, minBackoff, {}, 0;
      handed, settled := [], [];
    }

    /**
     * Every request id ever issued is either pending or settled, never both, and settled once only;
     * nothing is pending while the connection is down; the wait before a reconnect stays within its
     * bounds.
     */
    ghost predicate Valid()
      reads this`pending, this`settled, this`nextRequestId, this`backoff, this`hasSocket, this`state
    {
      && (!hasSocket && state == Down ==> pending == {})
      && pending !! SettledIds(settled)
      && pending + SettledIds(settled) == IssuedIds(nextRequestId)
      && (forall i, j | 0 <= i < j < |settled| :: settled[i].id != settled[j].id)
      && minBackoff <= backoff <= maxBackoff
    }

    /** A request leaves the pending table and is settled. */
    method Settle(id: string, outcome: Outcome)
      requires id in pending && Valid()
      modifies this`pending, this`settled
      ensures Valid()
      ensures pending == old(pending) - {id} && settled == old(settled) + [Settlement(id, outcome)]
    {
      SettledGrow(settled, Settlement(id, outcome));
      forall i | 0 <= i < |settled| ensures settled[i].id != id {
        assert settled[i].id in SettledIds(settled);
      }
      pending := pending - {id};
      settled := settled + [Settlement(id, outcome)];
    }

    // ----- Inbound -----

    /** A response settles its request if that is still pending; anything else settles nothing. */
    method HandleLine(line: string)
      requires Valid()
      modifies this`pending, this`events, this`handed, this`settled
      ensures Valid() && handed == old(handed) + [line]
      ensures match parse(line)
              case Reply(id, decodable) =>
                events == old(events) &&
                if id in old(pending) then
                  && pending == old(pending) - {id}
                  && settled == old(settled) + [Settlement(id, if decodable then Answered else BadResponse)]
                else pending == old(pending) && settled == old(settled)
              case _ =>
                && pending == old(pending) && settled == old(settled)
                && events == old(events) + if parse(line).Event? then 1 else 0
    {
      handed := handed + [line];
      match parse(line)
      case Malformed =>
      case Event => events := events + 1;
      case UndecodableEvent =>
      case Unrecognized =>
      case Reply(id, decodable) =>
        if id in pending {
          Settle(id, if decodable then Answered else BadResponse);
        }
    }

    /** Bytes arrive and are decoded: every completed line is handed on, the rest is kept. */
    method OnData(chunk: seq<Byte>)
      requires Valid()
      modifies this`readBuffer, this`pending, this`events, this`handed, this`settled
      ensures Valid() && old(settled) <= settled && pending <= old(pending)
      ensures handed == old(handed) + Handed(old(readBuffer) + Convert(chunk), trim)
      ensures readBuffer == Rest(old(readBuffer) + Convert(chunk))
    {
      hide Handed, Rest, SplitOn, NonEmpty, Valid, Convert;
      readBuffer := readBuffer + Convert(chunk);
      ghost var text := readBuffer;
      while true
        invariant Valid() && old(settled) <= settled && pending <= old(pending)
        invariant handed + Handed(readBuffer, trim) == old(handed) + Handed(text, trim)
        invariant Rest(readBuffer) == Rest(text)
        decreases |readBuffer|
      {
        var nl := IndexOfNewline(readBuffer);
        if nl.None? {
          NoNewline(readBuffer, trim);
          break;
        }
        FirstLine(readBuffer, nl.value, trim);
        var line := trim(readBuffer[..nl.value]);
        readBuffer := readBuffer[nl.value + 1..];
        if line != "" {
          HandleLine(line);
        }
      }
    }

    /** The stream subscription of one connection, chunk by chunk. */
    method Receive(chunks: seq<seq<Byte>>)
      requires Valid() && readBuffer == "" && handed == []
      modifies this`readBuffer, this`pending, this`events, this`handed, this`settled
      ensures Valid()
      ensures handed == Handed(Concat(ConvertEach(chunks)), trim) && readBuffer == Rest(Concat(ConvertEach(chunks)))
      ensures WellFormed(Concat(chunks)) && NoCutInside(chunks) && NoMarkDropped(chunks) ==>
                handed == Handed(Convert(Concat(chunks)), trim) && readBuffer == Rest(Convert(Concat(chunks)))
    {
      hide Handed, Rest, Valid, Convert, WellFormed, NoCutInside, NoMarkDropped;
      ghost var texts := ConvertEach(chunks);
      assert texts[..0] == [];
      for i := 0 to |chunks|
        invariant Valid() && (handed, readBuffer) == Fed(texts[..i], trim)
      {
        assert texts[..i + 1][..i] == texts[..i] && texts[i] == Convert(chunks[i]);
        OnData(chunks[i]);
      }
      assert texts[..|chunks|] == texts;
      ChunkingIsInvisible(texts, trim);
      if WellFormed(Concat(chunks)) && NoCutInside(chunks) && NoMarkDropped(chunks) {
        HarmlessCuts(chunks, trim);
      }
    }

    // ----- Outbound -----

    /** A request is issued under a new id, unless there is no usable connection. */
    method Send() returns (id: Option<string>)
      requires Valid()
      modifies this`nextRequestId, this`pending, this`settled
      ensures Valid()
      ensures !hasSocket || state == Incompatible ==>
                id.None? && nextRequestId == old(nextRequestId) && pending == old(pending) && settled == old(settled)
      ensures hasSocket && state != Incompatible ==> nextRequestId == old(nextRequestId) + 1
      ensures id.Some? ==>
                && id.value !in old(pending) && id.value !in SettledIds(old(settled))
                && pending == old(pending) + {id.value} && settled == old(settled)
      ensures id.None? ==> pending == old(pending)
    {
      id := None;
      if !hasSocket || state == Incompatible {
        return;
      }
      var newId := Decimal(nextRequestId);
      NewIdIsFresh(nextRequestId);
      nextRequestId := nextRequestId + 1;
      pending := pending + {newId};
      var written: bool := *;
      if !written {
        Settle(newId, NotWritten);
        return;
      }
      id := Some(newId);
    }

    /** The caller of a request that is still pending gives up. */
    method Timeout(id: string)
      requires Valid()
      modifies this`pending, this`settled
      ensures Valid() && id !in pending
      ensures id !in old(pending) ==> pending == old(pending) && settled == old(settled)
      ensures id in old(pending) ==> pending == old(pending) - {id} && settled == old(settled) + [Settlement(id, TimedOut)]
    {
      if id in pending {
        Settle(id, TimedOut);
      }
    }

    /** Everything outstanding fails, each request once. */
    method FailPending()
      requires Valid()
      modifies this`pending, this`settled
      ensures Valid() && pending == {} && old(settled) <= settled
      ensures SettledIds(settled) == SettledIds(old(settled)) + old(pending)
      ensures forall i | |old(settled)| <= i < |settled| :: settled[i].outcome == Disconnected
    {
      while pending != {}
        invariant Valid() && old(settled) <= settled && pending <= old(pending)
        invariant SettledIds(settled) == SettledIds(old(settled)) + (old(pending) - pending)
        invariant forall i | |old(settled)| <= i < |settled| :: settled[i].outcome == Disconnected
        decreases pending
      {
        hide IssuedIds;
        var id :| id in pending;
        SettledGrow(settled, Settlement(id, Disconnected));
        Settle(id, Disconnected);
      }
    }

    // ----- Connection -----

    /** A lost connection leaves nothing pending and doubles the wait, up to its cap. */
    method OnDisconnected()
      requires Valid()
      modifies this`pending, this`settled, this`hasSocket, this`state, this`backoff
      ensures Valid() && pending == {} && !hasSocket && old(settled) <= settled
      ensures SettledIds(settled) == IssuedIds(nextRequestId)
      ensures state == if old(state) == Incompatible then Incompatible else Down
      ensures running && 2 * old(backoff) <= maxBackoff ==> backoff == 2 * old(backoff)
      ensures running && 2 * old(backoff) > maxBackoff ==> backoff == maxBackoff
    {
      hide IssuedIds, SettledIds;
      FailPending();
      hasSocket := false;
      if state != Incompatible {
        state := Down;
      }
      if running {
        backoff := if backoff * 2 > maxBackoff then maxBackoff else backoff * 2;
      }
    }

    /** Begins to connect to an engine that is reachable or not; a no-op while already running. */
    method Start(reachable: bool)
      requires Valid()
      modifies this
      ensures Valid() && running && nextRequestId == old(nextRequestId) && old(settled) <= settled
      ensures old(running) ==>
                pending == old(pending) && settled == old(settled) && hasSocket == old(hasSocket) && state == old(state)
      ensures !old(running) && !old(hasSocket) ==>
                && hasSocket == reachable && state == (if reachable then Up else Down)
                && (reachable ==> readBuffer == "" && handed == [] && backoff == minBackoff)
                && (!reachable ==> pending == {})
    {
      if running {
        return;
      }
      running, backoff := true, minBackoff;
      Connect(reachable);
    }

    /**
     * The engine's answer to the greeting. An engine of another protocol version ends the connection
     * for good, but fails nothing that is pending: those requests are left to their timeouts.
     */
    method Handshake(answer: Greeting)
      requires Valid() && hasSocket
      modifies this`hasSocket, this`running, this`state
      ensures Valid()
      ensures answer.OtherVersion? || answer.VersionError? ==> !hasSocket && !running && state == Incompatible
      ensures !answer.OtherVersion? && !answer.VersionError? ==>
                hasSocket && running == old(running) && state == old(state)
    {
      if answer.OtherVersion? || answer.VersionError? {
        hasSocket, running, state := false, false, Incompatible;
      }
    }

    /** A connection attempt; a new connection starts with an empty buffer and the shortest wait. */
    method Connect(reachable: bool)
      requires Valid()
      modifies this
      ensures Valid() && nextRequestId == old(nextRequestId) && old(settled) <= settled
      ensures hasSocket && !old(hasSocket) ==> readBuffer == "" && handed == [] && state == Up && backoff == minBackoff
      ensures running == old(running)
      ensures running && !hasSocket ==> pending == {} && state == Down
      ensures old(running) && !old(hasSocket) ==>
                hasSocket == reachable && (reachable ==> pending == old(pending) && settled == old(settled))
      ensures !old(running) || old(hasSocket) ==>
                pending == old(pending) && settled == old(settled) && readBuffer == old(readBuffer) && state == old(state)
    {
      hide IssuedIds, SettledIds;
      if !running || hasSocket {
        return;
      }
      state := Connecting;
      if !reachable {
        OnDisconnected();
        return;
      }
      hasSocket, readBuffer, backoff, state := true, "", minBackoff, Up;
      handed := [];
    }
  }

  method IndexOfNewline(text: string) returns (nl: Option<nat>)
    ensures nl.Some? ==> nl.value < |text| && text[nl.value] == '\n' && '\n' !in text[..nl.value]
    ensures nl.None? ==> '\n' !in text
  {
    for i := 0 to |text|
      invariant '\n' !in text[..i]
    {
      if text[i] == '\n' {
        return Some(i);
      }
    }
    nl := None;
  }

  /** Ids print a counter, so a new one differs from every one before. */
  lemma NewIdIsFresh(n: nat)
    ensures Decimal(n) !in IssuedIds(n) && IssuedIds(n + 1) == IssuedIds(n) + {Decimal(n)}
  {
    hide Decimal;
    if Decimal(n) in IssuedIds(n) {
      var k :| 0 <= k < n && Decimal(k) == Decimal(n);
      DecimalIsInjective(k, n);
    }
  }

  lemma SettledGrow(settled: seq<Settlement>, s: Settlement)
    ensures SettledIds(settled + [s]) == SettledIds(settled) + {s.id}
  {
  }
}
