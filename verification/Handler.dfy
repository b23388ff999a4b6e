/** The request handler: one engine decision, at most one upstream lookup, at most two
    attempts to send, and one log entry for each request that is handled successfully. */
module Handler {
  import opened Text
  import opened Db
  import opened Compiler
  import opened Meaning
  import opened Engine
  import opened QueryLog
  import opened RateLimiter

  datatype RecordType = A | AAAA | OtherType(text: string)

  datatype RData = CnameData(target: string) | NullV4 | NullV6 | UpstreamData(text: string)

  datatype Record = Record(name: string, ttl: nat, data: RData)

  datatype ResponseCode = Refused | ServFail | NXDomain

  datatype Message = Records(records: seq<Record>) | ErrorMessage(code: ResponseCode)

  /** A message handed to the responder, and whether sending it succeeded. */
  datatype Sent = Sent(message: Message, ok: bool)

  datatype Query = Query(name: string, qtype: RecordType)

  datatype Request = Request(isQueryOp: bool, isQueryType: bool, query: Option<Query>, src: IpAddr)

  datatype ResolveError = ResolveError(nxDomain: bool, noRecords: bool)

  type Upstream = (string, RecordType) -> Result<seq<Record>, ResolveError>

  /** Everything outside one request: the rate limiter's verdict on its bucket, failing store
      reads, the upstream resolver, which aliases are names, the outcomes of the first and
      second attempt to send, and two clock readings. */
  datatype World = World(
    accepted: IpAddr -> bool,
    faults: ReadFaults,
    upstream: Upstream,
    isName: string -> bool,
    firstSend: bool,
    secondSend: bool,
    queryTime: int,
    now: int)

  /** The question and the kind of answer that are logged. */
  datatype Served = Served(question: string, answer: string)

  function TypeText(qtype: RecordType): string {
    match qtype
    case A => "A"
    case AAAA => "AAAA"
    case OtherType(text) => text
  }

  /** An IPv4-mapped IPv6 address is the IPv4 address that it maps. */
  function NormalizeIp(ip: IpAddr): IpAddr {
    if ip.V6? && IsMapped(ip.bits) then V4(ip.bits % 0x1_0000_0000) else ip
  }

  /** `Resolver::lookup`: an empty answer that is not a missing domain is no error. */
  function LookupUpstream(upstream: Upstream, name: string, qtype: RecordType): Result<seq<Record>, ResolveError> {
    match upstream(name, qtype)
    case Ok(records) => Ok(records)
    case Err(e) => if e.noRecords && !e.nxDomain then Ok([]) else Err(e)
  }

  function ResolveCode(e: ResolveError): ResponseCode {
    if e.nxDomain || e.noRecords then NXDomain else ServFail
  }

  // ---------- what a request amounts to ----------

  /** The response a request is to get before anything is sent: the records, the kind of
      answer and the names looked up upstream; or the error code, and those names. The two
      tables are the databases that answer `get_redirect` and `is_blocked`. */
  datatype Reply = Reply(result: Result<(seq<Record>, Served), ResponseCode>, lookups: seq<string>)

  function ReplyTo(first: Tables, second: Tables, request: Request, world: World): Reply {
    if !request.isQueryOp || !request.isQueryType then Reply(Err(Refused), [])
    else if request.query == None then Reply(Err(ServFail), [])
    else
      var Query(name, qtype) := request.query.value;
      var question := name + " " + TypeText(qtype);
      match RedirectResult(first, name, world.faults)
      case Err(_) => Reply(Err(ServFail), [])
      case Ok(Some(alias)) =>
        if !world.isName(alias) then Reply(Err(ServFail), [])
        else
          (match LookupUpstream(world.upstream, alias, qtype)
           case Err(e) => Reply(Err(ResolveCode(e)), [alias])
           case Ok(records) =>
             Reply(Ok(([Record(name, 60, CnameData(alias))] + records, Served(question, "rewritten: " + alias))), [alias]))
      case Ok(None) =>
        match BlockedResult(second, name, world.faults)
        case Err(_) => Reply(Err(ServFail), [])
        case Ok(true) =>
          (match qtype
           case A => Reply(Ok(([Record(name, 60, NullV4)], Served(question, "blocked"))), [])
           case AAAA => Reply(Ok(([Record(name, 60, NullV6)], Served(question, "blocked"))), [])
           case OtherType(_) => Reply(Err(NXDomain), []))
        case Ok(false) =>
          match LookupUpstream(world.upstream, name, qtype)
          case Err(e) => Reply(Err(ResolveCode(e)), [name])
          case Ok(records) => Reply(Ok((records, Served(question, "forwarded"))), [name])
  }

  /** Sending a reply: a failed first attempt turns into a server failure. */
  function Outcome(reply: Reply, world: World): Result<Served, ResponseCode> {
    match reply.result
    case Ok((_, served)) => if world.firstSend then Ok(served) else Err(ServFail)
    case Err(code) => Err(code)
  }

  /** The messages handed to the responder, in order: the records, and after a failure to
      send them the error message; or only the error message. */
  function Exchange(reply: Reply, world: World): seq<Sent> {
    match reply.result
    case Ok((records, _)) =>
      [Sent(Records(records), world.firstSend)]
      + if world.firstSend then [] else [Sent(ErrorMessage(ServFail), world.secondSend)]
    case Err(code) => [Sent(ErrorMessage(code), world.firstSend)]
  }

  /** The code of the response that is reported back, if it is an error: the code of the error
      message if that could be sent, and a server failure if not. */
  function Info(reply: Reply, world: World): Option<ResponseCode> {
    match Outcome(reply, world)
    case Ok(_) => None
    case Err(code) => if (if reply.result.Ok? then world.secondSend else world.firstSend) then Some(code) else Some(ServFail)
  }

  /** What one request adds to the log. */
  function Logged(reply: Reply, request: Request, world: World): seq<Insertion<IpAddr>> {
    match Outcome(reply, world)
    case Ok(served) =>
      [Insertion(NormalizeIp(request.src), Log(world.queryTime, served.question, served.answer), world.now)]
    case Err(_) => []
  }

  class RequestHandler {
    const engine: AdblockEngine
    const queryLog: QueryLogStore<IpAddr>
    const limited: bool
    const ipv4Prefix: nat
    const ipv6Prefix: nat
    /** What has been handed to responders and asked upstream, over all requests. */
    var sent: seq<Sent>
    var lookups: seq<string>

    ghost predicate Valid()
      reads this, engine, engine.db.blacklist, engine.db.whitelist, engine.db.rewrites, queryLog
    {
      engine.Valid() && queryLog.Valid()
    }

    constructor (engine: AdblockEngine, queryLog: QueryLogStore<IpAddr>, limited: bool, ipv4Prefix: nat, ipv6Prefix: nat)
      requires engine.Valid() && queryLog.Valid()
      ensures Valid() && sent == [] && lookups == []
      ensures this.engine == engine && this.queryLog == queryLog
      ensures this.limited == limited && this.ipv4Prefix == ipv4Prefix && this.ipv6Prefix == ipv6Prefix
    {
      this.engine, this.queryLog := engine, queryLog;
      this.limited, this.ipv4Prefix, this.ipv6Prefix := limited, ipv4Prefix, ipv6Prefix;
      sent, lookups := [], [];
    }

    method SendResponse(message: Message, ok: bool) returns (r: Result<(), ResponseCode>)
      modifies this`sent
      ensures sent == old(sent) + [Sent(message, ok)]
      ensures r == if ok then Ok(()) else Err(ServFail)
    {
      sent := sent + [Sent(message, ok)];
      return if ok then Ok(()) else Err(ServFail);
    }

    method Resolve(upstream: Upstream, name: string, qtype: RecordType) returns (r: Result<seq<Record>, ResponseCode>)
      modifies this`lookups
      ensures lookups == old(lookups) + [name]
      ensures r == match LookupUpstream(upstream, name, qtype) case Ok(records) => Ok(records) case Err(e) => Err(ResolveCode(e))
    {
      lookups := lookups + [name];
      match LookupUpstream(upstream, name, qtype) {
        case Ok(records) => return Ok(records);
        case Err(e) => return Err(ResolveCode(e));
      }
    }

    method DoHandleRequest(request: Request, world: World) returns (r: Result<Served, ResponseCode>)
      requires Valid()
      modifies this`sent, this`lookups
      ensures Valid()
      ensures var reply := ReplyTo(engine.db.Contents(), engine.db.Contents(), request, world);
              && lookups == old(lookups) + reply.lookups
              && r == Outcome(reply, world)
              && sent == old(sent) + if reply.result.Ok? then [Sent(Records(reply.result.value.0), world.firstSend)] else []
    {
      if !request.isQueryOp {
        return Err(Refused);
      }
      if !request.isQueryType {
        return Err(Refused);
      }
      if request.query == None {
        return Err(ServFail);
      }
      var Query(name, qtype) := request.query.value;
      var question := name + " " + TypeText(qtype);
      var redirect := engine.GetRedirect(name, world.faults);
      if redirect.Err? {
        return Err(ServFail);
      }
      if redirect.value.Some? {
        var alias := redirect.value.value;
        var records := [];
        if !world.isName(alias) {
          return Err(ServFail);
        }
        records := records + [Record(name, 60, CnameData(alias))];
        assert records == [Record(name, 60, CnameData(alias))];
        var aliasRecords := Resolve(world.upstream, alias, qtype);
        if aliasRecords.Err? {
          return Err(aliasRecords.error);
        }
        records := records + aliasRecords.value;
        var info := SendResponse(Records(records), world.firstSend);
        if info.Err? {
          return Err(info.error);
        }
        return Ok(Served(question, "rewritten: " + alias));
      }
      var blocked := engine.IsBlockedName(name, world.faults);
      if blocked.Err? {
        return Err(ServFail);
      }
      if blocked.value {
        match qtype {
          case A =>
            var info := SendResponse(Records([Record(name, 60, NullV4)]), world.firstSend);
            if info.Err? {
              return Err(info.error);
            }
            return Ok(Served(question, "blocked"));
          case AAAA =>
            var info := SendResponse(Records([Record(name, 60, NullV6)]), world.firstSend);
            if info.Err? {
              return Err(info.error);
            }
            return Ok(Served(question, "blocked"));
          case OtherType(_) => return Err(NXDomain);
        }
      }
      var records := Resolve(world.upstream, name, qtype);
      if records.Err? {
        return Err(records.error);
      }
      var info := SendResponse(Records(records.value), world.firstSend);
      if info.Err? {
        return Err(info.error);
      }
      return Ok(Served(question, "forwarded"));
    }

    /** A rate-limited request is dropped without any reply; a successful one is logged; a
        failed one gets an error message. The result is the code of the response, if it was
        an error. */
    method HandleRequest(request: Request, world: World) returns (info: Option<ResponseCode>)
      requires Valid()
      modifies this`sent, this`lookups, queryLog
      ensures Valid()
      ensures var dropped := IsDropped(limited, ipv4Prefix, ipv6Prefix, request, world);
              var event := Event(engine.db.Contents(), engine.db.Contents(), request, world, dropped);
              && info == (if dropped then Some(Refused) else Info(EventReply(event), world))
              && sent == old(sent) + EventSent(event)
              && lookups == old(lookups) + EventLookups(event)
              && queryLog.history == old(queryLog.history) + EventLog(event)
              && (dropped ==> queryLog.logs == old(queryLog.logs))
    {
      var srcIp := NormalizeIp(request.src);
      var rateKey := MaskIp(srcIp, ipv4Prefix, ipv6Prefix);
      if limited && !world.accepted(rateKey) {
        return Some(Refused);
      }
      var before := |sent|;
      var r := DoHandleRequest(request, world);
      match r {
        case Ok(served) =>
          queryLog.Insert(srcIp, Log(world.queryTime, served.question, served.answer), world.now);
          return None;
        case Err(code) =>
          var attempt := SendResponse(ErrorMessage(code), if |sent| == before then world.firstSend else world.secondSend);
          match attempt {
            case Ok(_) => return Some(code);
            case Err(_) => return Some(ServFail);
          }
      }
    }
  }

  // ---------- consequences ----------

  /** At most two attempts to send; the second only after the first has failed, and then it
      is a server failure; at most one attempt succeeds. An error is sent as its code, once. */
  lemma {:induction false} SendsPerRequest(first: Tables, second: Tables, request: Request, world: World)
    ensures var reply := ReplyTo(first, second, request, world);
            var sent := Exchange(reply, world);
            && 1 <= |sent| <= 2 && sent[0].ok == world.firstSend
            && (|sent| == 2 <==> reply.result.Ok? && !world.firstSend)
            && (|sent| == 2 ==> sent[1] == Sent(ErrorMessage(ServFail), world.secondSend))
            && (reply.result.Ok? ==> sent[0].message == Records(reply.result.value.0))
            && (reply.result.Err? ==> sent[0].message == ErrorMessage(reply.result.error))
            && forall i, j :: 0 <= i < j < |sent| ==> !(sent[i].ok && sent[j].ok)
  {
  }

  /** What is reported back: no error exactly when the records went out; else the code of the
      error message that went out, and a server failure when none did. */
  lemma {:induction false} InfoSays(first: Tables, second: Tables, request: Request, world: World)
    ensures var reply := ReplyTo(first, second, request, world);
            var sent := Exchange(reply, world);
            var last := sent[|sent| - 1];
            Info(reply, world) == if last.ok then (match last.message case Records(_) => None case ErrorMessage(code) => Some(code))
                                  else Some(ServFail)
  {
  }

  /** A request that is not dropped is logged exactly when it is a well-formed query, the
      stores could be read, the name to forward was resolved or an address was asked of a
      blocked name, and the first attempt to send succeeded. In particular a blocked query
      for another record type is never logged. */
  lemma {:induction false} LoggedIff(first: Tables, second: Tables, request: Request, world: World)
    ensures Logged(ReplyTo(first, second, request, world), request, world) != []
       <==> && request.isQueryOp && request.isQueryType && request.query.Some?
            && world.firstSend
            && Answerable(first, second, request.query.value, world)
    ensures |Logged(ReplyTo(first, second, request, world), request, world)| <= 1
  {
    LoggedIfSent(ReplyTo(first, second, request, world), request, world);
    RepliesIff(first, second, request, world);
  }

  lemma {:induction false} LoggedIfSent(reply: Reply, request: Request, world: World)
    ensures Logged(reply, request, world) != [] <==> reply.result.Ok? && world.firstSend
    ensures |Logged(reply, request, world)| <= 1
  {
  }

  lemma {:induction false} RepliesIff(first: Tables, second: Tables, request: Request, world: World)
    ensures ReplyTo(first, second, request, world).result.Ok?
       <==> && request.isQueryOp && request.isQueryType && request.query.Some?
            && Answerable(first, second, request.query.value, world)
  {
  }

  /** The upstream resolver gives records, or says that the name has none of this type. */
  predicate Resolves(world: World, name: string, qtype: RecordType) {
    match world.upstream(name, qtype)
    case Ok(_) => true
    case Err(e) => e.noRecords && !e.nxDomain
  }

  ghost predicate Answerable(first: Tables, second: Tables, query: Query, world: World) {
    match RedirectResult(first, query.name, world.faults)
    case Err(_) => false
    case Ok(Some(alias)) => world.isName(alias) && Resolves(world, alias, query.qtype)
    case Ok(None) =>
      match BlockedResult(second, query.name, world.faults)
      case Err(_) => false
      case Ok(true) => query.qtype == A || query.qtype == AAAA
      case Ok(false) => Resolves(world, query.name, query.qtype)
  }

  /** The log entry: the normalised address, the time of the query, the question as asked and
      the kind of answer. */
  lemma {:induction false} LogEntrySays(first: Tables, second: Tables, request: Request, world: World)
    requires world.faults == NO_FAULTS && request.query.Some?
    requires Logged(ReplyTo(first, second, request, world), request, world) != []
    ensures var Query(name, qtype) := request.query.value;
            var entry := Logged(ReplyTo(first, second, request, world), request, world)[0];
            && entry.ip == NormalizeIp(request.src) && entry.now == world.now
            && entry.log.queryTime == world.queryTime
            && entry.log.question == (match qtype
                                      case A => name + " " + "A"
                                      case AAAA => name + " " + "AAAA"
                                      case OtherType(text) => name + " " + text)
            && entry.log.answer == (match Answer(first, second, name)
                                    case Rewritten(alias) => "rewritten: " + alias
                                    case Blocked => "blocked"
                                    case Forwarded => "forwarded")
  {
    ResultsAreLookups(first, request.query.value.name);
    ResultsAreLookups(second, request.query.value.name);
  }

  /** What is no query is refused; what the stores or the libraries fail on is a server
      failure; nothing is asked upstream for either. */
  lemma {:induction false} Refusals(first: Tables, second: Tables, request: Request, world: World)
    ensures var reply := ReplyTo(first, second, request, world);
            && (!request.isQueryOp || !request.isQueryType ==> reply.result == Err(Refused) && reply.lookups == [])
            && (request.isQueryOp && request.isQueryType && request.query == None ==>
                  reply.result == Err(ServFail) && reply.lookups == [])
            && (request.isQueryOp && request.isQueryType && request.query.Some? ==>
                  var name := request.query.value.name;
                  var asked := FirstHit(first.rewrites, world.faults.rewrites, Keys(name));
                  && (asked.Err? ==> reply.result == Err(ServFail) && reply.lookups == [])
                  && (asked.Ok? && asked.value.Some? && !world.isName(asked.value.value) ==>
                        reply.result == Err(ServFail) && reply.lookups == [])
                  && (asked == Ok(None) && FirstHit(second.whitelist, world.faults.whitelist, Keys(name)).Err? ==>
                        reply.result == Err(ServFail) && reply.lookups == [])
                  && (asked == Ok(None) && FirstHit(second.whitelist, world.faults.whitelist, Keys(name)) == Ok(None)
                      && FirstHit(second.blacklist, world.faults.blacklist, Keys(name)).Err? ==>
                        reply.result == Err(ServFail) && reply.lookups == []))
  {
  }

  /** What a reply makes of the upstream resolver's answer: all its records, in order, behind
      `front`; no more than `front` if there are none of this type; no such domain if that is
      the answer; and a server failure on any other error. */
  ghost predicate PassesOn(reply: Reply, world: World, name: string, qtype: RecordType, front: seq<Record>, answer: string) {
    && reply.lookups == [name]
    && match world.upstream(name, qtype)
       case Ok(records) => reply.result.Ok? && reply.result.value.0 == front + records && reply.result.value.1.answer == answer
       case Err(e) =>
         if e.nxDomain then reply.result == Err(NXDomain)
         else if e.noRecords then reply.result.Ok? && reply.result.value.0 == front && reply.result.value.1.answer == answer
         else reply.result == Err(ServFail)
  }

  /** The records that go out show the decision that was taken, and a rewritten name is
      followed for exactly one hop: the alias goes to the upstream resolver, whatever rules
      there are for the alias itself. */
  lemma {:induction false} ReplyShowsDecision(first: Tables, second: Tables, request: Request, world: World)
    requires request.isQueryOp && request.isQueryType && request.query.Some? && world.faults == NO_FAULTS
    ensures var Query(name, qtype) := request.query.value;
            var reply := ReplyTo(first, second, request, world);
            match Answer(first, second, name)
            case Rewritten(alias) =>
              if world.isName(alias)
              then PassesOn(reply, world, alias, qtype, [Record(name, 60, CnameData(alias))], "rewritten: " + alias)
              else reply.result == Err(ServFail) && reply.lookups == []
            case Blocked =>
              && reply.lookups == []
              && (qtype == A ==> reply.result.Ok? && reply.result.value.0 == [Record(name, 60, NullV4)])
              && (qtype == AAAA ==> reply.result.Ok? && reply.result.value.0 == [Record(name, 60, NullV6)])
              && (qtype.OtherType? ==> reply.result == Err(NXDomain))
              && (reply.result.Ok? ==> reply.result.value.1.answer == "blocked")
            case Forwarded => PassesOn(reply, world, name, qtype, [], "forwarded")
  {
    ResultsAreLookups(first, request.query.value.name);
    ResultsAreLookups(second, request.query.value.name);
  }

  /** Requests from addresses of one bucket meet one verdict; without a limiter there is none. */
  lemma {:induction false} OneVerdictPerBucket(limited: bool, p4: nat, p6: nat, request: Request, other: Request, world: World)
    requires Shares(NormalizeIp(request.src), NormalizeIp(other.src), p4, p6)
    ensures IsDropped(limited, p4, p6, request, world) == IsDropped(limited, p4, p6, other, world)
    ensures IsDropped(limited, p4, p6, request, world)
       <==> limited && !world.accepted(MaskIp(NormalizeIp(request.src), p4, p6))
  {
  }

  // ---------- whole runs ----------

  /** A request with the databases and the world it met; `dropped` by the rate limiter. */
  datatype Event = Event(first: Tables, second: Tables, request: Request, world: World, dropped: bool)

  function EventReply(e: Event): Reply {
    ReplyTo(e.first, e.second, e.request, e.world)
  }

  function EventLog(e: Event): seq<Insertion<IpAddr>> {
    if e.dropped then [] else Logged(EventReply(e), e.request, e.world)
  }

  function EventSent(e: Event): seq<Sent> {
    if e.dropped then [] else Exchange(EventReply(e), e.world)
  }

  function EventLookups(e: Event): seq<string> {
    if e.dropped then [] else EventReply(e).lookups
  }

  /** The request was not dropped and `do_handle_request` succeeded. */
  predicate Succeeds(e: Event) {
    !e.dropped && Outcome(EventReply(e), e.world).Ok?
  }

  function History(events: seq<Event>): seq<Insertion<IpAddr>> {
    if events == [] then []
    else
      var n := |events| - 1;
      History(events[..n]) + EventLog(events[n])
  }

  /** Requests of an address that were handled successfully. */
  function SuccessesOf(events: seq<Event>, ip: IpAddr): nat {
    if events == [] then 0
    else
      var n := |events| - 1;
      SuccessesOf(events[..n], ip)
      + if Succeeds(events[n]) && NormalizeIp(events[n].request.src) == ip then 1 else 0
  }

  /** Over any run, each address has one log entry per request of it that was handled
      successfully, and none for requests of other addresses. */
  lemma {:induction false} OneEntryPerSuccess(events: seq<Event>, ip: IpAddr)
    ensures |EntriesOf(History(events), ip)| == SuccessesOf(events, ip)
  {
    if events == [] {
    } else {
      var n := |events| - 1;
      OneEntryPerSuccess(events[..n], ip);
      var before, added := History(events[..n]), EventLog(events[n]);
      if added == [] {
        assert before + [] == before;
      } else {
        assert |added| == 1;
        assert (before + added)[..|before|] == before;
      }
    }
  }

  function AllSent(events: seq<Event>): seq<Sent> {
    if events == [] then []
    else
      var n := |events| - 1;
      AllSent(events[..n]) + EventSent(events[n])
  }

  function AllLookups(events: seq<Event>): seq<string> {
    if events == [] then []
    else
      var n := |events| - 1;
      AllLookups(events[..n]) + EventLookups(events[n])
  }

  /** Messages that were sent successfully, and those of them that are records. */
  function Delivered(sent: seq<Sent>): seq<Sent> {
    if sent == [] then []
    else
      var n := |sent| - 1;
      Delivered(sent[..n]) + if sent[n].ok then [sent[n]] else []
  }

  function DeliveredRecords(sent: seq<Sent>): seq<Sent> {
    if sent == [] then []
    else
      var n := |sent| - 1;
      DeliveredRecords(sent[..n]) + if sent[n].ok && sent[n].message.Records? then [sent[n]] else []
  }

  /** Requests that the rate limiter let through. */
  function Admitted(events: seq<Event>): nat {
    if events == [] then 0
    else
      var n := |events| - 1;
      Admitted(events[..n]) + if events[n].dropped then 0 else 1
  }

  lemma {:induction false} DeliveredConcat(a: seq<Sent>, b: seq<Sent>)
    ensures Delivered(a + b) == Delivered(a) + Delivered(b)
    ensures DeliveredRecords(a + b) == DeliveredRecords(a) + DeliveredRecords(b)
  {
    if b == [] {
      assert a + b == a;
    } else {
      var n := |b| - 1;
      assert (a + b)[..|a + b| - 1] == a + b[..n];
      DeliveredConcat(a, b[..n]);
    }
  }

  /** One request delivers at most one message, none if it was dropped, and records exactly
      when it leaves a log entry. */
  lemma {:induction false} DeliveredByOne(e: Event)
    ensures |Delivered(EventSent(e))| <= if e.dropped then 0 else 1
    ensures |DeliveredRecords(EventSent(e))| == |EventLog(e)|
  {
    if !e.dropped {
      ExchangeDelivers(EventReply(e), e.world);
    }
  }

  lemma {:induction false} DeliveredAlone(x: Sent)
    ensures Delivered([x]) == if x.ok then [x] else []
    ensures DeliveredRecords([x]) == if x.ok && x.message.Records? then [x] else []
  {
    assert [x][..0] == [];
  }

  lemma {:induction false} ExchangeDelivers(reply: Reply, world: World)
    ensures |Delivered(Exchange(reply, world))| <= 1
    ensures |DeliveredRecords(Exchange(reply, world))| == if Outcome(reply, world).Ok? then 1 else 0
  {
    var sent := Exchange(reply, world);
    DeliveredAlone(sent[0]);
    if |sent| == 2 {
      DeliveredAlone(sent[1]);
      DeliveredConcat([sent[0]], [sent[1]]);
      assert sent == [sent[0]] + [sent[1]];
    } else {
      assert sent == [sent[0]];
    }
  }

  /** Over any run: the messages delivered are never more than the requests let through, and
      the log has grown by as many entries as sets of records have been delivered. */
  lemma {:induction false} DeliveriesOverRuns(events: seq<Event>)
    ensures |Delivered(AllSent(events))| <= Admitted(events)
    ensures |DeliveredRecords(AllSent(events))| == |History(events)|
  {
    if events == [] {
    } else {
      var n := |events| - 1;
      DeliveriesOverRuns(events[..n]);
      DeliveredConcat(AllSent(events[..n]), EventSent(events[n]));
      DeliveredByOne(events[n]);
    }
  }

  /** What happens to a handler and its engine, in order: requests and updates. */
  datatype Job = Ask(request: Request, world: World) | Update(input: UpdateInput)

  /** The rate limiter of a handler drops this request. */
  predicate IsDropped(limited: bool, p4: nat, p6: nat, request: Request, world: World) {
    limited && !world.accepted(MaskIp(NormalizeIp(request.src), p4, p6))
  }

  /** The contents of the published database after one more job. */
  function TablesAfterJob(ps: LineParsers, t: Tables, job: Job): Tables {
    match job
    case Ask(_, _) => t
    case Update(input) =>
      if (input.createFails == None || input.createFails.value >= 3) && input.config.Some?
      then Apply(EMPTY, Writes(ps, input.config.value), input.failed)
      else t
  }

  /** The event of a job that finds these contents; updates are none. */
  function EventOf(limited: bool, p4: nat, p6: nat, t: Tables, job: Job): seq<Event> {
    match job
    case Ask(request, world) => [Event(t, t, request, world, IsDropped(limited, p4, p6, request, world))]
    case Update(_) => []
  }

  function TablesAfter(ps: LineParsers, t: Tables, jobs: seq<Job>): Tables {
    if jobs == [] then t
    else
      var n := |jobs| - 1;
      TablesAfterJob(ps, TablesAfter(ps, t, jobs[..n]), jobs[n])
  }

  /** The requests among the jobs, each with the database that the updates before it left. */
  function EventsOf(ps: LineParsers, limited: bool, p4: nat, p6: nat, t: Tables, jobs: seq<Job>): seq<Event> {
    if jobs == [] then []
    else
      var n := |jobs| - 1;
      EventsOf(ps, limited, p4, p6, t, jobs[..n]) + EventOf(limited, p4, p6, TablesAfter(ps, t, jobs[..n]), jobs[n])
  }

  lemma {:induction false} NextJob(ps: LineParsers, limited: bool, p4: nat, p6: nat, t: Tables, jobs: seq<Job>, k: nat)
    requires k < |jobs|
    ensures var before := TablesAfter(ps, t, jobs[..k]);
            && TablesAfter(ps, t, jobs[..k + 1]) == TablesAfterJob(ps, before, jobs[k])
            && EventsOf(ps, limited, p4, p6, t, jobs[..k + 1])
            == EventsOf(ps, limited, p4, p6, t, jobs[..k]) + EventOf(limited, p4, p6, before, jobs[k])
  {
    assert jobs[..k + 1][..k] == jobs[..k];
  }

  /** What a handler has sent, asked upstream and logged. */
  datatype Trace = Trace(sent: seq<Sent>, lookups: seq<string>, history: seq<Insertion<IpAddr>>)

  /** The trace grown by these events. */
  function Grown(trace: Trace, events: seq<Event>): Trace {
    Trace(trace.sent + AllSent(events), trace.lookups + AllLookups(events), trace.history + History(events))
  }

  lemma {:induction false} SentNext(events: seq<Event>, e: Event)
    ensures AllSent(events + [e]) == AllSent(events) + AllSent([e])
  {
    assert (events + [e])[..|events|] == events && [e][..0] == [];
  }

  lemma {:induction false} LookupsNext(events: seq<Event>, e: Event)
    ensures AllLookups(events + [e]) == AllLookups(events) + AllLookups([e])
  {
    assert (events + [e])[..|events|] == events && [e][..0] == [];
  }

  lemma {:induction false} HistoryNext(events: seq<Event>, e: Event)
    ensures History(events + [e]) == History(events) + History([e])
  {
    assert (events + [e])[..|events|] == events && [e][..0] == [];
  }

  lemma {:induction false} GrownByMore(trace: Trace, events: seq<Event>, more: seq<Event>)
    requires |more| <= 1
    ensures Grown(trace, events + more) == Grown(Grown(trace, events), more)
  {
    if more == [] {
      assert events + more == events;
    } else {
      var e := more[0];
      assert more == [e];
      SentNext(events, e);
      LookupsNext(events, e);
      HistoryNext(events, e);
      Associate(trace.sent, AllSent(events), AllSent(more));
      Associate(trace.lookups, AllLookups(events), AllLookups(more));
      Associate(trace.history, History(events), History(more));
    }
  }

  lemma {:induction false} OneEvent(e: Event)
    ensures AllSent([e]) == EventSent(e) && History([e]) == EventLog(e)
    ensures AllLookups([e]) == EventLookups(e)
  {
    assert [e][..0] == [];
  }

  ghost function TraceOf(h: RequestHandler): Trace
    reads h, h.queryLog
  {
    Trace(h.sent, h.lookups, h.queryLog.history)
  }

  method ServeOne(h: RequestHandler, ps: LineParsers, job: Job)
    requires h.Valid()
    modifies h`sent, h`lookups, h.queryLog, h.engine
    modifies h.engine.db.blacklist, h.engine.db.whitelist, h.engine.db.rewrites
    ensures h.Valid()
    ensures h.engine.db == old(h.engine.db)
      || (fresh(h.engine.db.blacklist) && fresh(h.engine.db.whitelist) && fresh(h.engine.db.rewrites))
    ensures h.engine.db.Contents() == TablesAfterJob(ps, old(h.engine.db.Contents()), job)
    ensures TraceOf(h)
         == Grown(old(TraceOf(h)), EventOf(h.limited, h.ipv4Prefix, h.ipv6Prefix, old(h.engine.db.Contents()), job))
  {
    match job {
      case Ask(request, world) =>
        OneEvent(EventOf(h.limited, h.ipv4Prefix, h.ipv6Prefix, h.engine.db.Contents(), job)[0]);
        var _ := h.HandleRequest(request, world);
      case Update(input) =>
        var _, _ := h.engine.RunUpdate(ps, input);
    }
  }

  /** The handler after these jobs, from a database with contents `t` and the trace `trace`. */
  ghost predicate HasServed(h: RequestHandler, ps: LineParsers, t: Tables, trace: Trace, jobs: seq<Job>)
    reads h, h.engine, h.queryLog, h.engine.db.blacklist, h.engine.db.whitelist, h.engine.db.rewrites
  {
    && h.Valid()
    && h.engine.db.Contents() == TablesAfter(ps, t, jobs)
    && TraceOf(h) == Grown(trace, EventsOf(ps, h.limited, h.ipv4Prefix, h.ipv6Prefix, t, jobs))
  }

  method ServeNext(h: RequestHandler, ps: LineParsers, jobs: seq<Job>, k: nat, ghost t: Tables, ghost trace: Trace)
    requires k < |jobs| && HasServed(h, ps, t, trace, jobs[..k])
    modifies h`sent, h`lookups, h.queryLog, h.engine
    modifies h.engine.db.blacklist, h.engine.db.whitelist, h.engine.db.rewrites
    ensures HasServed(h, ps, t, trace, jobs[..k + 1])
    ensures h.engine.db == old(h.engine.db)
      || (fresh(h.engine.db.blacklist) && fresh(h.engine.db.whitelist) && fresh(h.engine.db.rewrites))
  {
    ghost var before := TablesAfter(ps, t, jobs[..k]);
    NextJob(ps, h.limited, h.ipv4Prefix, h.ipv6Prefix, t, jobs, k);
    GrownByMore(trace, EventsOf(ps, h.limited, h.ipv4Prefix, h.ipv6Prefix, t, jobs[..k]),
                EventOf(h.limited, h.ipv4Prefix, h.ipv6Prefix, before, jobs[k]));
    ServeOne(h, ps, jobs[k]);
  }

  /** A run of the handler and its engine is a run of events: everything sent, asked upstream
      and logged is what those events amount to. */
  method Serve(h: RequestHandler, ps: LineParsers, jobs: seq<Job>)
    requires h.Valid()
    modifies h`sent, h`lookups, h.queryLog, h.engine
    modifies h.engine.db.blacklist, h.engine.db.whitelist, h.engine.db.rewrites
    ensures h.Valid()
    ensures h.engine.db.Contents() == TablesAfter(ps, old(h.engine.db.Contents()), jobs)
    ensures var events := EventsOf(ps, h.limited, h.ipv4Prefix, h.ipv6Prefix, old(h.engine.db.Contents()), jobs);
            && h.sent == old(h.sent) + AllSent(events)
            && h.lookups == old(h.lookups) + AllLookups(events)
            && h.queryLog.history == old(h.queryLog.history) + History(events)
  {
    ghost var t, trace := h.engine.db.Contents(), TraceOf(h);
    assert Grown(trace, []) == trace;
    for k := 0 to |jobs|
      invariant HasServed(h, ps, t, trace, jobs[..k])
      invariant h.engine.db == old(h.engine.db)
        || (fresh(h.engine.db.blacklist) && fresh(h.engine.db.whitelist) && fresh(h.engine.db.rewrites))
    {
      ServeNext(h, ps, jobs, k, t, trace);
    }
    assert jobs[..|jobs|] == jobs;
  }
}
