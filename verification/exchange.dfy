/**
 * The mail transaction context `Exchange` of exchange.go: the client's
 * domain, the sender, the recipient list and the body, with the mutators the
 * commands call. The address parser, the `isIp` test and the delivery sink
 * are collaborators the core cannot see: the first two are fields of `Env`,
 * and every call of `Mailer.Send` is recorded in `sent`.
 */
module Exchanges {
  import opened Wrappers
  import opened DomainName

  /** A parsed mailbox (`net/mail.Address`). */
  datatype Address = Address(name: string, address: string)

  /** The `Mail` value handed to `Mailer.Send`; a nil sender or body is `None`. */
  datatype Message = Message(from: Option<Address>, to: seq<Address>, body: Option<string>)

  /**
   * The collaborators: `parse` is `net/mail.AddressParser.Parse` (an address
   * or the parser's error text), `isIp` is the IP-literal test, `hostname` is
   * the name the server announces.
   */
  datatype Env = Env(parse: string -> Result<Address>, isIp: string -> bool, hostname: string)

  datatype Exchange = Exchange(
    domain: string,
    from: Option<Address>,
    to: seq<Address>,
    body: Option<string>,
    sent: seq<Message>)

  /** `NewExchange`: every field at its zero value, nothing sent. */
  const NewExchange := Exchange("", None, [], None, [])

  const InvalidDomain := "invalid domain"

  /** `Exchange.Domain`: accepts a domain name or an IP literal; on refusal nothing changes. */
  function SetDomain(ex: Exchange, domain: string, env: Env): (r: Result<Exchange>)
    ensures r.Ok? <==> ValidDomainName(domain) || env.isIp(domain)
    ensures r.Ok? ==> r.value == ex.(domain := domain)
    ensures r.Err? ==> r.error == InvalidDomain
  {
    if !ValidDomainName(domain) && !env.isIp(domain) then Err(InvalidDomain)
    else Ok(ex.(domain := domain))
  }

  /** main.go's older `Exchange.Domain`, which knows no IP literals. */
  function SetDomainNameOnly(ex: Exchange, domain: string): (r: Result<Exchange>)
    ensures r.Ok? <==> ValidDomainName(domain)
    ensures r.Ok? ==> r.value == ex.(domain := domain)
    ensures r.Err? ==> r.error == InvalidDomain
  {
    if !ValidDomainName(domain) then Err(InvalidDomain) else Ok(ex.(domain := domain))
  }

  /** Whatever the older check accepts, the newer one accepts the same way, whatever `isIp` says. */
  lemma NameOnlyRefinesDomain(ex: Exchange, domain: string, env: Env)
    requires SetDomainNameOnly(ex, domain).Ok?
    ensures SetDomain(ex, domain, env) == SetDomainNameOnly(ex, domain)
  {
  }

  /** `Exchange.From`: the parsed sender replaces the old one; a parse error is passed up unchanged. */
  function SetFrom(ex: Exchange, raw: string, env: Env): (r: Result<Exchange>)
    ensures env.parse(raw).Err? ==> r == Err(env.parse(raw).error)
    ensures env.parse(raw).Ok? ==> r.Ok? && r.value.from == Some(env.parse(raw).value)
    ensures r.Ok? ==> r.value == ex.(from := r.value.from)
  {
    match env.parse(raw)
    case Err(e) => Err(e)
    case Ok(addr) => Ok(ex.(from := Some(addr)))
  }

  /**
   * `Exchange.To`: the parsed recipient is appended at the end; earlier
   * recipients keep their order and nothing is deduplicated.
   */
  function AddTo(ex: Exchange, raw: string, env: Env): (r: Result<Exchange>)
    ensures env.parse(raw).Err? ==> r == Err(env.parse(raw).error)
    ensures env.parse(raw).Ok? ==> r.Ok?
    ensures r.Ok? ==> |r.value.to| == |ex.to| + 1
    ensures r.Ok? ==> r.value.to[..|ex.to|] == ex.to
    ensures r.Ok? ==> r.value.to[|ex.to|] == env.parse(raw).value
    ensures r.Ok? ==> r.value == ex.(to := r.value.to)
  {
    match env.parse(raw)
    case Err(e) => Err(e)
    case Ok(addr) => Ok(ex.(to := ex.to + [addr]))
  }

  /** `Exchange.Body`. */
  function SetBody(ex: Exchange, body: string): (r: Exchange)
    ensures r.body == Some(body)
    ensures r == ex.(body := r.body)
  {
    ex.(body := Some(body))
  }

  /** `Exchange.Reset`: forgets sender and recipients; domain, body and the record of sends stay. */
  function Reset(ex: Exchange): (r: Exchange)
    ensures r.from == None && r.to == []
    ensures r.domain == ex.domain && r.body == ex.body && r.sent == ex.sent
  {
    ex.(from := None, to := [])
  }

  /**
   * `Exchange.Done`: one call of `Mailer.Send` with the current sender,
   * recipients and body (its error is ignored), then `Reset`.
   */
  function Done(ex: Exchange): (r: Exchange)
    ensures r.sent == ex.sent + [Message(ex.from, ex.to, ex.body)]
    ensures r == Reset(ex).(sent := r.sent)
  {
    Reset(ex).(sent := ex.sent + [Message(ex.from, ex.to, ex.body)])
  }

  /** Recording a recipient and then another keeps both, in arrival order. */
  lemma AddToTwiceKeepsOrder(ex: Exchange, a: string, b: string, env: Env)
    requires env.parse(a).Ok? && env.parse(b).Ok?
    ensures AddTo(ex, a, env).Ok?
    ensures AddTo(AddTo(ex, a, env).value, b, env).Ok?
    ensures AddTo(AddTo(ex, a, env).value, b, env).value.to
         == ex.to + [env.parse(a).value, env.parse(b).value]
  {
    var ex1 := AddTo(ex, a, env).value;
    var ex2 := AddTo(ex1, b, env).value;
    assert ex1.to == ex.to + [env.parse(a).value];
    assert ex2.to == ex1.to + [env.parse(b).value];
  }

  /** A completed transaction is delivered once, and the next one starts with no sender or recipients. */
  lemma DoneThenReset(ex: Exchange)
    ensures Reset(Done(ex)) == Done(ex)
    ensures |Done(ex).sent| == |ex.sent| + 1
  {
  }
}
