/**
 * Envelopes and headers across a transport: through a stored record and its relay, and through a
 * RabbitMQ message and its retries. Ids and times are printed and parsed by given functions, each
 * the other's inverse.
 */
module Envelopes {
  import opened FailureQueues
  import opened Options
  import opened RetryProtocol

  type Id = nat
  type Time = nat

  datatype Envelope = Envelope(message: Id, correlation: Id, causation: Option<Id>, at: Time)

  const MESSAGE_ID := "x-message-id"
  const CORRELATION_ID := "x-correlation-id"
  const CAUSATION_ID := "x-causation-id"
  const TIMESTAMP := "x-timestamp"

  const ENVELOPE_HEADERS := {MESSAGE_ID, CORRELATION_ID, CAUSATION_ID, TIMESTAMP}
  const RESERVED := ENVELOPE_HEADERS + {ATTEMPTS, FAILURE}

  /** Printing and parsing, and the text of a header that is no text. */
  datatype Codec = Codec(
    showId: Id -> string,
    readId: string -> Option<Id>,
    showTime: Time -> string,
    readTime: string -> Option<Time>,
    show: Header -> string,
    lower: string -> string
  )

  /** Parsing undoes printing, a text shows as itself, and reserved names are in lower case. */
  ghost predicate Faithful(c: Codec) {
    && (forall id: Id :: c.readId(c.showId(id)) == Some(id))
    && (forall t: Time :: c.readTime(c.showTime(t)) == Some(t))
    && (forall s :: c.show(Text(s)) == s)
    && (forall name <- RESERVED :: c.lower(name) == name)
  }

  // ----- an envelope as headers -----

  function ToHeaders(c: Codec, e: Envelope): map<string, string> {
    var ids :=
      map[MESSAGE_ID := c.showId(e.message), CORRELATION_ID := c.showId(e.correlation), TIMESTAMP := c.showTime(e.at)];
    if e.causation.Some? then ids[CAUSATION_ID := c.showId(e.causation.value)] else ids
  }

  function Texts(headers: map<string, string>): Headers {
    map name | name in headers :: Text(headers[name])
  }

  /** A header that is there and not null. */
  function Present(headers: Headers, name: string): Option<Header> {
    if name in headers && headers[name] != Null then Some(headers[name]) else None
  }

  /** What is made up where headers lack it. */
  datatype Made = Made(message: Id, correlation: Id, at: Time)

  /** A header read as an id: one that is there and is none is an error, which is no result. */
  function ReadId(c: Codec, headers: Headers, name: string): Option<Option<Id>> {
    var value := Present(headers, name);
    if value.None? then Some(None)
    else
      var id := c.readId(c.show(value.value));
      if id.None? then None else Some(id)
  }

  function ReadTime(c: Codec, headers: Headers): Option<Option<Time>> {
    var value := Present(headers, TIMESTAMP);
    if value.None? then Some(None)
    else
      var at := c.readTime(c.show(value.value));
      if at.None? then None else Some(at)
  }

  /** Rebuild an envelope from headers, making up what is missing; none if one cannot be parsed. */
  function FromHeaders(c: Codec, headers: Headers, made: Made): Option<Envelope> {
    var message := ReadId(c, headers, MESSAGE_ID);
    var correlation := ReadId(c, headers, CORRELATION_ID);
    var causation := ReadId(c, headers, CAUSATION_ID);
    var at := ReadTime(c, headers);
    if message.None? || correlation.None? || causation.None? || at.None? then None
    else
      Some(Envelope(message.value.GetOr(made.message), correlation.value.GetOr(made.correlation), causation.value,
                    at.value.GetOr(made.at)))
  }

  lemma {:induction false} NamesDiffer()
    ensures MESSAGE_ID != CORRELATION_ID && MESSAGE_ID != CAUSATION_ID && MESSAGE_ID != TIMESTAMP
    ensures CORRELATION_ID != CAUSATION_ID && CORRELATION_ID != TIMESTAMP && CAUSATION_ID != TIMESTAMP
    ensures ATTEMPTS != FAILURE && ATTEMPTS !in ENVELOPE_HEADERS && FAILURE !in ENVELOPE_HEADERS
  {
    assert MESSAGE_ID[2] == 'm' && CORRELATION_ID[2] == 'c' && CAUSATION_ID[2] == 'c' && TIMESTAMP[2] == 't';
    assert CORRELATION_ID[3] == 'o' && CAUSATION_ID[3] == 'a';
    assert ATTEMPTS[2] == 'a' && FAILURE[2] == 'f';
  }

  /** The ids and the time that every envelope has are read back, whatever they are laid over. */
  lemma {:induction false} ReadsOwn(c: Codec, below: Headers, e: Envelope)
    requires Faithful(c)
    ensures var h := below + Texts(ToHeaders(c, e));
            && ReadId(c, h, MESSAGE_ID) == Some(Some(e.message))
            && ReadId(c, h, CORRELATION_ID) == Some(Some(e.correlation))
            && ReadTime(c, h) == Some(Some(e.at))
  {
    NamesDiffer();
  }

  /**
   * Headers laid over others give an envelope back exactly when it has a cause of its own, or those
   * below have no cause: nothing else of what is below shows through.
   */
  lemma {:induction false} HeadersGiveBack(c: Codec, below: Headers, e: Envelope, made: Made)
    requires Faithful(c)
    ensures FromHeaders(c, below + Texts(ToHeaders(c, e)), made) == Some(e)
       <==> e.causation.Some? || Present(below, CAUSATION_ID).None?
  {
    NamesDiffer();
    var h := below + Texts(ToHeaders(c, e));
    ReadsOwn(c, below, e);
    if e.causation.Some? {
      assert ReadId(c, h, CAUSATION_ID) == Some(Some(e.causation.value));
    } else {
      assert Present(h, CAUSATION_ID) == Present(below, CAUSATION_ID);
    }
  }

  // ----- the headers middleware adds -----

  /** The headers a publish middleware adds to a message, which are never the bus's own. */
  class MessageHeaders {
    const codec: Codec
    const reserved: set<string>
    var headers: map<string, string>

    constructor (codec: Codec, reserved: set<string>)
      ensures this.codec == codec && this.reserved == reserved && headers == map[]
    {
      this.codec, this.reserved := codec, reserved;
      headers := map[];
    }

    /** No header has a reserved name, whatever its case. */
    predicate Valid()
      reads this
    {
      Allowed(codec, reserved, headers.Keys)
    }

    /** Set a header, refusing a reserved name. */
    method Set(name: string, value: string) returns (ok: bool)
      requires Valid()
      modifies this
      ensures Valid() && (ok <==> codec.lower(name) !in reserved)
      ensures headers == if ok then old(headers)[name := value] else old(headers)
    {
      ok := codec.lower(name) !in reserved;
      if ok {
        headers := headers[name := value];
      }
    }

    method Delete(name: string) returns (ok: bool)
      requires Valid()
      modifies this
      ensures Valid() && (ok <==> name in old(headers)) && headers == old(headers) - {name}
    {
      ok := name in headers;
      headers := headers - {name};
    }

    /** Set several headers in turn, up to the first that is refused. */
    method Update(items: seq<(string, string)>) returns (ok: bool)
      requires Valid()
      modifies this
      ensures Valid()
      ensures ok <==> forall i :: 0 <= i < |items| ==> codec.lower(items[i].0) !in reserved
      ensures ok ==> headers == old(headers) + LastOf(items)
    {
      for i := 0 to |items|
        invariant Valid() && headers == old(headers) + LastOf(items[..i])
        invariant forall j :: 0 <= j < i ==> codec.lower(items[j].0) !in reserved
      {
        LastOfMore(items, i, old(headers));
        ok := Set(items[i].0, items[i].1);
        if !ok {
          return;
        }
      }
      assert items[..|items|] == items;
      ok := true;
    }
  }

  predicate Allowed(c: Codec, reserved: set<string>, names: set<string>) {
    forall name <- names :: c.lower(name) !in reserved
  }

  /** The last value given to each name. */
  function LastOf(items: seq<(string, string)>): map<string, string> {
    if items == [] then map[] else LastOf(items[..|items| - 1])[items[|items| - 1].0 := items[|items| - 1].1]
  }

  lemma LastOfMore(items: seq<(string, string)>, i: nat, under: map<string, string>)
    requires i < |items|
    ensures under + LastOf(items[..i + 1]) == (under + LastOf(items[..i]))[items[i].0 := items[i].1]
  {
    assert items[..i + 1][..i] == items[..i];
  }

  /** Allowed headers have none of the reserved names. */
  lemma {:induction false} AllowedIsApart(c: Codec, reserved: set<string>, names: set<string>)
    requires Faithful(c) && reserved <= RESERVED && Allowed(c, reserved, names)
    ensures names !! reserved
  {
    forall name | name in names ensures name !in reserved {
      assert name in RESERVED ==> c.lower(name) == name;
    }
  }

  // ----- through the outbox -----

  /** A stored record's headers: those the middleware added, under the envelope's. */
  function Stored(c: Codec, added: map<string, string>, e: Envelope): map<string, string> {
    added + ToHeaders(c, e)
  }

  /** What a relay takes for added: every header but an envelope's. */
  function Added(headers: map<string, string>): map<string, string> {
    map name | name in headers && name !in ENVELOPE_HEADERS :: headers[name]
  }

  /**
   * A record that is stored and relayed gives back its envelope and exactly the headers that the
   * middleware added.
   */
  lemma {:induction false} RecordGivesBack(c: Codec, added: map<string, string>, e: Envelope, made: Made)
    requires Faithful(c) && Allowed(c, ENVELOPE_HEADERS, added.Keys)
    ensures FromHeaders(c, Texts(Stored(c, added, e)), made) == Some(e)
    ensures Added(Stored(c, added, e)) == added
  {
    AllowedIsApart(c, ENVELOPE_HEADERS, added.Keys);
    HeadersGiveBack(c, Texts(added), e, made);
    TextsOver(added, ToHeaders(c, e));
    AddedBack(c, added, e);
  }

  lemma {:induction false} TextsOver(a: map<string, string>, b: map<string, string>)
    ensures Texts(a + b) == Texts(a) + Texts(b)
  {
  }

  lemma {:induction false} AddedBack(c: Codec, added: map<string, string>, e: Envelope)
    requires added.Keys !! ENVELOPE_HEADERS
    ensures Added(Stored(c, added, e)) == added
  {
    assert ToHeaders(c, e).Keys <= ENVELOPE_HEADERS;
  }

  /**
   * A RabbitMQ publisher takes what the relay gives it exactly when the middleware added no header
   * that marks a failure: those are the adapter's own, and the outbox does not refuse them.
   */
  lemma {:induction false} RelayedHeadersAreTaken(c: Codec, added: map<string, string>, e: Envelope)
    requires Faithful(c) && Allowed(c, ENVELOPE_HEADERS, added.Keys)
    ensures Allowed(c, RESERVED, Added(Stored(c, added, e)).Keys) <==> Allowed(c, {ATTEMPTS, FAILURE}, added.Keys)
  {
    RecordGivesBack(c, added, e, Made(0, 0, 0));
  }

  /** Such a header: the outbox keeps one that counts attempts, and the publisher refuses it. */
  lemma AttemptsHeaderIsRefused(c: Codec, e: Envelope, value: string)
    requires Faithful(c)
    ensures var added := map[ATTEMPTS := value];
            Allowed(c, ENVELOPE_HEADERS, added.Keys) && !Allowed(c, RESERVED, Added(Stored(c, added, e)).Keys)
  {
    NamesDiffer();
    var added := map[ATTEMPTS := value];
    assert ATTEMPTS in RESERVED && c.lower(ATTEMPTS) == ATTEMPTS;
    assert ATTEMPTS in added.Keys && !Allowed(c, {ATTEMPTS, FAILURE}, added.Keys);
    RelayedHeadersAreTaken(c, added, e);
  }

  // ----- through RabbitMQ -----

  /** Copy a config's properties, stamped with the message's headers, envelope ids and timestamp. */
  function Stamp(c: Codec, config: Mail, e: Envelope, added: map<string, string>): Mail {
    config.(headers := config.headers + Texts(added) + Texts(ToHeaders(c, e)),
            properties := config.properties.(messageId := Some(c.showId(e.message)),
                                             correlationId := Some(c.showId(e.correlation)),
                                             timestamp := Some(e.at)))
  }

  function OptionalText(value: Option<string>): Header {
    if value.Some? then Text(value.value) else Null
  }

  /** The ids and time that a delivered message has as properties, under its headers. */
  function Native(c: Codec, p: Properties): Headers {
    map[MESSAGE_ID := OptionalText(p.messageId), CORRELATION_ID := OptionalText(p.correlationId),
        TIMESTAMP := if p.timestamp.Some? then Text(c.showTime(p.timestamp.value)) else Null]
  }

  /** The envelope that a delivered message carries. */
  function EnvelopeOf(c: Codec, m: Mail, made: Made): Option<Envelope> {
    FromHeaders(c, Native(c, m.properties) + m.headers, made)
  }

  /**
   * A message that is stamped and delivered carries the envelope it was sent with exactly when that
   * has a cause, or the config's own headers name none.
   */
  lemma {:induction false} MessageGivesBack(
    c: Codec, config: Mail, e: Envelope, added: map<string, string>, made: Made
  )
    requires Faithful(c) && Allowed(c, RESERVED, added.Keys)
    ensures EnvelopeOf(c, Stamp(c, config, e, added), made) == Some(e)
       <==> e.causation.Some? || Present(config.headers, CAUSATION_ID).None?
  {
    AllowedIsApart(c, RESERVED, added.Keys);
    var native := Native(c, Stamp(c, config, e, added).properties);
    HeadersGiveBack(c, native + config.headers + Texts(added), e, made);
    CauseIsBelow(native, config.headers, added);
    LaidOver(native, config.headers, Texts(added), Texts(ToHeaders(c, e)));
  }

  /** What a header, if it is there and not null, or else a default, is read as. */
  predicate ReadAs<T(==)>(headers: Headers, name: string, read: Header -> Option<T>, made: T, got: T) {
    if name in headers && headers[name] != Null then read(headers[name]) == Some(got) else got == made
  }

  /** Each field of an envelope is from its own header, or made up if that is missing; without a cause there is none. */
  lemma {:induction false} FieldsAreRead(c: Codec, headers: Headers, made: Made, e: Envelope)
    requires FromHeaders(c, headers, made) == Some(e)
    ensures ReadAs(headers, MESSAGE_ID, (h: Header) => c.readId(c.show(h)), made.message, e.message)
    ensures ReadAs(headers, CORRELATION_ID, (h: Header) => c.readId(c.show(h)), made.correlation, e.correlation)
    ensures ReadAs(headers, TIMESTAMP, (h: Header) => c.readTime(c.show(h)), made.at, e.at)
    ensures if CAUSATION_ID in headers && headers[CAUSATION_ID] != Null
            then e.causation.Some? && c.readId(c.show(headers[CAUSATION_ID])) == e.causation else e.causation.None?
  {
  }

  /**
   * A message that lost its headers, as a foreign client may drop them, still carries its ids and time
   * as properties, but not its cause.
   */
  lemma {:induction false} PropertiesStandIn(
    c: Codec, config: Mail, e: Envelope, added: map<string, string>, made: Made
  )
    requires Faithful(c)
    ensures EnvelopeOf(c, Stamp(c, config, e, added).(headers := map[]), made) == Some(e.(causation := None))
  {
    NamesDiffer();
    var bare := Stamp(c, config, e, added).(headers := map[]);
    var native := Native(c, bare.properties);
    assert native + bare.headers == native;
    assert native[MESSAGE_ID] == Text(c.showId(e.message)) && native[CORRELATION_ID] == Text(c.showId(e.correlation));
    assert native[TIMESTAMP] == Text(c.showTime(e.at)) && CAUSATION_ID !in native;
  }

  lemma {:induction false} LaidOver(a: Headers, b: Headers, d: Headers, e: Headers)
    ensures a + (b + d + e) == a + b + d + e
  {
  }

  /** No cause is among a message's properties, or the headers that middleware adds. */
  lemma {:induction false} CauseIsBelow(native: Headers, below: Headers, added: map<string, string>)
    requires native.Keys == {MESSAGE_ID, CORRELATION_ID, TIMESTAMP} && added.Keys !! RESERVED
    ensures Present(native + below + Texts(added), CAUSATION_ID) == Present(below, CAUSATION_ID)
  {
    NamesDiffer();
    assert CAUSATION_ID in RESERVED;
    assert CAUSATION_ID !in added;
  }

  /** Otherwise it carries the config's cause: here, one in a config whose headers say what caused it. */
  lemma {:induction false} ConfigCauseShows(
    c: Codec, config: Mail, e: Envelope, cause: Id, added: map<string, string>, made: Made
  )
    requires Faithful(c) && Allowed(c, RESERVED, added.Keys) && e.causation.None?
    requires CAUSATION_ID in config.headers && config.headers[CAUSATION_ID] == Text(c.showId(cause))
    ensures EnvelopeOf(c, Stamp(c, config, e, added), made) == Some(e.(causation := Some(cause)))
  {
    NamesDiffer();
    AllowedIsApart(c, RESERVED, added.Keys);
    assert CAUSATION_ID in RESERVED && CAUSATION_ID !in added;
    var native, own := Native(c, Stamp(c, config, e, added).properties), ToHeaders(c, e);
    var below := native + config.headers + Texts(added);
    assert below[CAUSATION_ID] == Text(c.showId(cause)) && CAUSATION_ID !in own;
    LaidOver(native, config.headers, Texts(added), Texts(own));
    CauseShows(c, below, e, cause, made);
  }

  /** What is laid over others without a cause of its own has the cause that is below. */
  lemma {:induction false} CauseShows(c: Codec, below: Headers, e: Envelope, cause: Id, made: Made)
    requires Faithful(c) && e.causation.None?
    requires CAUSATION_ID in below && below[CAUSATION_ID] == Text(c.showId(cause))
    ensures FromHeaders(c, below + Texts(ToHeaders(c, e)), made) == Some(e.(causation := Some(cause)))
  {
    NamesDiffer();
    var h := below + Texts(ToHeaders(c, e));
    ReadsOwn(c, below, e);
    assert ReadId(c, h, CAUSATION_ID) == Some(Some(cause));
  }

  /** What handlers' middleware reads of a delivered message's headers: those that are text. */
  function HeadersFrom(m: Mail): map<string, string> {
    map name | name in m.headers && m.headers[name].Text? :: m.headers[name].text
  }

  lemma {:induction false} TextsLaidOver(below: Mail, over: map<string, string>)
    ensures HeadersFrom(below.(headers := below.headers + Texts(over))) == HeadersFrom(below) + over
  {
    var read, expected := HeadersFrom(below.(headers := below.headers + Texts(over))), HeadersFrom(below) + over;
    forall name: string
      ensures name in read <==> name in expected
      ensures name in read ==> read[name] == expected[name]
    {
    }
  }

  /**
   * What middleware reads of a message is what it was sent with: the text headers of its config,
   * under those that were added, under its envelope's; an added header is always the last word.
   */
  lemma {:induction false} AddedHeadersArrive(c: Codec, config: Mail, e: Envelope, added: map<string, string>)
    requires Faithful(c) && Allowed(c, RESERVED, added.Keys)
    ensures HeadersFrom(Stamp(c, config, e, added)) == HeadersFrom(config) + added + ToHeaders(c, e)
    ensures forall name <- added ::
              name in HeadersFrom(Stamp(c, config, e, added))
              && HeadersFrom(Stamp(c, config, e, added))[name] == added[name]
  {
    AllowedIsApart(c, RESERVED, added.Keys);
    assert ToHeaders(c, e).Keys <= ENVELOPE_HEADERS;
    var under := config.(headers := config.headers + Texts(added));
    TextsLaidOver(config, added);
    TextsLaidOver(under, ToHeaders(c, e));
    assert HeadersFrom(Stamp(c, config, e, added)) ==
           HeadersFrom(under.(headers := under.headers + Texts(ToHeaders(c, e))));
  }

  /** And it reads the same of every copy, but for the two headers that mark a failure. */
  lemma {:induction false} RetriesKeepTheHeaders(config: Config, kind: Kind, labels: seq<Label>, id: nat)
    requires Declared(config, kind) && Runs(config, [], labels) && id < |Run(config, [], labels)|
    ensures var s := Run(config, [], labels);
            s[id].first < |s|
            && HeadersFrom(s[id].mail) - {ATTEMPTS, FAILURE} == HeadersFrom(s[s[id].first].mail) - {ATTEMPTS, FAILURE}
  {
    var s := Run(config, [], labels);
    CopiesKeepTheLetter(config, kind, labels, id);
    SameLetterSameHeaders(s[id].mail, s[s[id].first].mail);
  }

  lemma {:induction false} SameLetterSameHeaders(a: Mail, b: Mail)
    requires SameLetter(a, b)
    ensures HeadersFrom(a) - {ATTEMPTS, FAILURE} == HeadersFrom(b) - {ATTEMPTS, FAILURE}
  {
    var ha, hb := HeadersFrom(a) - {ATTEMPTS, FAILURE}, HeadersFrom(b) - {ATTEMPTS, FAILURE};
    forall name: string
      ensures name in ha <==> name in hb
      ensures name in ha ==> ha[name] == hb[name]
    {
      assert name in a.headers - {ATTEMPTS, FAILURE} <==> name in b.headers - {ATTEMPTS, FAILURE};
      if name in a.headers - {ATTEMPTS, FAILURE} {
        assert (a.headers - {ATTEMPTS, FAILURE})[name] == (b.headers - {ATTEMPTS, FAILURE})[name];
      }
    }
  }

  lemma {:induction false} SameLetterSameEnvelope(c: Codec, a: Mail, b: Mail, made: Made)
    requires SameLetter(a, b)
    ensures EnvelopeOf(c, a, made) == EnvelopeOf(c, b, made)
  {
    var ha, hb := Native(c, a.properties) + a.headers, Native(c, b.properties) + b.headers;
    SameHeader(a, b, ha, hb, c, MESSAGE_ID);
    SameHeader(a, b, ha, hb, c, CORRELATION_ID);
    SameHeader(a, b, ha, hb, c, CAUSATION_ID);
    SameHeader(a, b, ha, hb, c, TIMESTAMP);
  }

  lemma {:induction false} SameHeader(a: Mail, b: Mail, ha: Headers, hb: Headers, c: Codec, name: string)
    requires SameLetter(a, b) && name in ENVELOPE_HEADERS
    requires ha == Native(c, a.properties) + a.headers && hb == Native(c, b.properties) + b.headers
    ensures Present(ha, name) == Present(hb, name)
  {
    NamesDiffer();
    assert name != ATTEMPTS && name != FAILURE;
    assert name in a.headers <==> name in a.headers - {ATTEMPTS, FAILURE};
    assert name in b.headers <==> name in b.headers - {ATTEMPTS, FAILURE};
    assert name in a.headers ==> a.headers[name] == (a.headers - {ATTEMPTS, FAILURE})[name];
  }

  /**
   * After any number of failures, retries and redeliveries, every copy of a message carries the
   * envelope that the message was sent with exactly when that has a cause, or the config's own
   * headers name none.
   */
  lemma {:induction false} RetriesKeepTheEnvelope(
    c: Codec, config: Config, kind: Kind, labels: seq<Label>, id: nat, sent: Mail, e: Envelope,
    added: map<string, string>, made: Made
  )
    requires Faithful(c) && Allowed(c, RESERVED, added.Keys)
    requires Declared(config, kind) && Runs(config, [], labels) && id < |Run(config, [], labels)|
    requires var s := Run(config, [], labels); s[id].first < |s| && s[s[id].first].mail == Stamp(c, sent, e, added)
    ensures EnvelopeOf(c, Run(config, [], labels)[id].mail, made) == Some(e)
       <==> e.causation.Some? || Present(sent.headers, CAUSATION_ID).None?
  {
    var s := Run(config, [], labels);
    CopiesKeepTheLetter(config, kind, labels, id);
    SameLetterSameEnvelope(c, s[id].mail, s[s[id].first].mail, made);
    MessageGivesBack(c, sent, e, added, made);
  }

  // ----- chains -----

  /** The next envelope in a chain: of the same correlation, caused by this message. */
  function Child(e: Envelope, message: Id, at: Time): Envelope {
    Envelope(message, e.correlation, Some(e.message), at)
  }

  /** The active envelopes, outermost first, of blocks each opened inside the last with no envelope of its own. */
  function Chain(root: Envelope, messages: seq<(Id, Time)>): seq<Envelope> {
    if messages == [] then [root]
    else
      var before := Chain(root, messages[..|messages| - 1]);
      before + [Child(before[|before| - 1], messages[|messages| - 1].0, messages[|messages| - 1].1)]
  }

  /** A whole chain has its root's correlation, and each envelope but the root is caused by the last. */
  lemma {:induction false} ChainIsCausal(root: Envelope, messages: seq<(Id, Time)>)
    ensures var chain := Chain(root, messages);
            && |chain| == |messages| + 1 && chain[0] == root
            && (forall i :: 0 <= i < |chain| ==> chain[i].correlation == root.correlation)
            && (forall i :: 0 < i < |chain| ==>
                  && chain[i].causation == Some(chain[i - 1].message)
                  && chain[i].message == messages[i - 1].0 && chain[i].at == messages[i - 1].1)
  {
    if messages != [] {
      ChainIsCausal(root, messages[..|messages| - 1]);
    }
  }
}
