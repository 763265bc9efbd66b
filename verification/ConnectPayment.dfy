/** recipes.ConnectPayment: the nine-step off-ramp, over an oracle that answers or fails at
    every remote call. */
module ConnectPayment {
  import opened Go
  import opened Tracks
  import opened TokenStore
  import opened Assets
  import opened Keypair
  import AutoRefresh
  import Collections

  // ---- The remote calls ----

  datatype Payment = Payment(toPublicKey: string, fromAsset: string, toAsset: string, amount: string, sendMax: string,
                             memo: string, memoType: string)

  datatype Request =
    | ListAssociations
    | ListWallets(associationId: string)
    | GetBeneficiary(associationId: string, beneficiaryId: string)
    | Challenge(account: string)
    | Submit(signed: string)
    | QueryConnectors(country: string, payoutMethod: string)
    | GetQuote(connectorId: string, amount: string, currency: string, destination: string)
    | GetStellarQuote(from: string, to: string, amount: string)
    | Pay(walletId: string, payment: Payment)
    | Execute(quoteId: string, txHash: string, destination: string, memo: string)

  datatype Destination = Destination(payoutMethod: string, country: string, raw: string)

  datatype Connector = Connector(id: string, payoutMethod: string, isActive: bool, acceptedAsset: string)

  const NO_CONNECTOR: Connector := Connector("", "", false, "")

  /** A quote; `raw` is the reply's text, which decoding the reply leaves empty. */
  datatype Quote = Quote(quoteId: string, acceptedAsset: string, sendAmount: string, raw: string)

  datatype QuoteReply = QuoteReply(quoteId: string, acceptedAsset: string, sendAmount: string)

  /** What the sign-in endpoint sends, and the clock reading at which it is parsed. */
  datatype Login = Login(idToken: Bytes, refreshToken: Bytes, expiresIn: string, arrival: int)

  datatype Executed = Executed(transactionId: string, status: string)

  type Sent = seq<Request>

  /** What each remote call answers, given all the requests so far, itself included; None is
      any failure. `sign` is the challenge signer, if there is one; `clearingAccount` reads that
      field of a quote's text. */
  datatype Oracle = Oracle(
    associations: Sent -> Option<seq<string>>,
    wallets: Sent -> Option<seq<string>>,
    beneficiary: Sent -> Option<seq<Destination>>,
    hasSigner: bool,
    challenge: Sent -> Option<string>,
    sign: string -> Option<string>,
    submit: Sent -> Option<Login>,
    connectors: Sent -> Option<seq<Connector>>,
    quote: Sent -> Option<QuoteReply>,
    stellarQuote: Sent -> Option<string>,
    pay: Sent -> Option<string>,
    execute: Sent -> Option<Executed>,
    clearingAccount: string -> string)

  datatype Input = Input(
    seed: string, publicKey: string, associationId: string, walletId: string, fundingAsset: Asset,
    beneficiaryId: string, payoutMethod: string, country: string, sendAmount: string, memo: string, memoType: string)

  datatype Problem =
    | Invalid
    | BadKeypair
    | NoSigner
    | CannotSign
    | BadReply
    | BadFilter
    | BadAsset
    | NoConnector
    | NoDestination
    | WrongTrack
    | Remote(step: nat)

  /** ^[A-Z0-9_]+$ */
  predicate IsEnum(s: string) {
    s != "" && forall i :: 0 <= i < |s| ==> 'A' <= s[i] <= 'Z' || '0' <= s[i] <= '9' || s[i] == '_'
  }

  // ---- The choices ----

  function FirstDestination(ds: seq<Destination>, payoutMethod: string, country: string): Option<string> {
    if ds == [] then None
    else if ds[0].payoutMethod == payoutMethod && ds[0].country == country then Some(ds[0].raw)
    else FirstDestination(ds[1..], payoutMethod, country)
  }

  lemma {:induction false} DestinationIsFirst(ds: seq<Destination>, payoutMethod: string, country: string)
    returns (i: nat)
    ensures i <= |ds|
    ensures forall j :: 0 <= j < i ==> ds[j].payoutMethod != payoutMethod || ds[j].country != country
    ensures i < |ds| ==> ds[i].payoutMethod == payoutMethod && ds[i].country == country
    ensures FirstDestination(ds, payoutMethod, country) == if i < |ds| then Some(ds[i].raw) else None
  {
    if ds == [] || (ds[0].payoutMethod == payoutMethod && ds[0].country == country) {
      i := 0;
    } else {
      i := DestinationIsFirst(ds[1..], payoutMethod, country);
      assert forall j :: 0 < j < i + 1 ==> ds[j] == ds[1..][j - 1];
      i := i + 1;
    }
  }

  function FirstActive(cs: seq<Connector>, payoutMethod: string): Option<Connector> {
    if cs == [] then None
    else if cs[0].isActive && cs[0].payoutMethod == payoutMethod then Some(cs[0])
    else FirstActive(cs[1..], payoutMethod)
  }

  lemma {:induction false} ActiveIsFirst(cs: seq<Connector>, payoutMethod: string) returns (i: nat)
    ensures i <= |cs|
    ensures forall j :: 0 <= j < i ==> !cs[j].isActive || cs[j].payoutMethod != payoutMethod
    ensures i < |cs| ==> cs[i].isActive && cs[i].payoutMethod == payoutMethod
    ensures FirstActive(cs, payoutMethod) == if i < |cs| then Some(cs[i]) else None
  {
    if cs == [] || (cs[0].isActive && cs[0].payoutMethod == payoutMethod) {
      i := 0;
    } else {
      i := ActiveIsFirst(cs[1..], payoutMethod);
      assert forall j :: 0 < j < i + 1 ==> cs[j] == cs[1..][j - 1];
      i := i + 1;
    }
  }

  /** The caller's own choice stands; otherwise the first active connector is taken. */
  predicate Chosen(was: Connector, cs: seq<Connector>, payoutMethod: string, selected: Connector) {
    if was.id != "" then selected == was else FirstActive(cs, payoutMethod) == Some(selected)
  }

  /** A Stellar quote is needed when the accepted asset parses and is not the funding asset. */
  predicate Requires(funding: Asset, quote: Option<Quote>) {
    quote.Some? && ParseAsset(quote.value.acceptedAsset).Some?
    && !funding.Equal(ParseAsset(quote.value.acceptedAsset).value)
  }

  /** One of the two assets of a conversion does not parse. */
  predicate Unparsable(input: Input, q: Quote) {
    ParseAsset(input.fundingAsset.String()).None? || ParseAsset(q.acceptedAsset).None?
  }

  function ClearingAccount(oracle: Oracle, raw: string): string {
    if raw == "" then "" else oracle.clearingAccount(raw)
  }

  // ---- The plan ----

  /** What a run knows once its steps have answered. */
  datatype Answers = Answers(
    beneficiary: Option<seq<Destination>>, signed: string, connectors: seq<Connector>, selected: Connector,
    quote: Option<Quote>, sendMax: Option<string>, txHash: string)

  /** Steps 1 to 3. */
  function Start(input: Input): Sent {
    [ListAssociations, ListWallets(input.associationId), GetBeneficiary(input.associationId, input.beneficiaryId)]
  }

  /** Step 4: the challenge, and the challenge signed. */
  function SigningIn(input: Input, signed: string): Sent {
    [Challenge(input.publicKey), Submit(signed)]
  }

  /** Steps 4 and 5. */
  function Entry(input: Input, signed: string): Sent {
    SigningIn(input, signed) + [QueryConnectors(input.country, input.payoutMethod)]
  }

  /** Steps 1 to 5. */
  function Opening(input: Input, signed: string): Sent {
    Start(input) + Entry(input, signed)
  }

  function DestinationOf(input: Input, beneficiary: Option<seq<Destination>>): string {
    match beneficiary
    case None => ""
    case Some(ds) =>
      match FirstDestination(ds, input.payoutMethod, input.country)
      case None => ""
      case Some(raw) => raw
  }

  function Quoting(input: Input, a: Answers): Request {
    GetQuote(a.selected.id, input.sendAmount, a.selected.acceptedAsset, DestinationOf(input, a.beneficiary))
  }

  function Conversion(input: Input, q: Quote): Request {
    GetStellarQuote(input.fundingAsset.String(), q.acceptedAsset, q.sendAmount)
  }

  function Converting(input: Input, a: Answers): Sent {
    if Requires(input.fundingAsset, a.quote)
    then [Conversion(input, a.quote.value)]
    else []
  }

  function Paying(oracle: Oracle, input: Input, a: Answers): Request
    requires a.quote.Some?
  {
    var q := a.quote.value;
    var converts := Requires(input.fundingAsset, a.quote) && a.sendMax.Some?;
    Pay(input.walletId,
        Payment(ClearingAccount(oracle, q.raw), input.fundingAsset.String(),
                if converts then q.acceptedAsset else "", q.sendAmount,
                if converts then a.sendMax.value else "", input.memo, input.memoType))
  }

  function Executing(input: Input, a: Answers): Request
    requires a.quote.Some?
  {
    Execute(a.quote.value.quoteId, a.txHash, DestinationOf(input, a.beneficiary), input.memo)
  }

  /** Steps 6 and 7. */
  function Quotes(input: Input, a: Answers): Sent {
    [Quoting(input, a)] + Converting(input, a)
  }

  /** Steps 8 and 9. */
  function Settlement(oracle: Oracle, input: Input, a: Answers): Sent {
    if a.quote.Some? then [Paying(oracle, input, a), Executing(input, a)] else []
  }

  /** The requests of a run, in order. */
  function Plan(oracle: Oracle, input: Input, a: Answers): Sent {
    Opening(input, a.signed) + (Quotes(input, a) + Settlement(oracle, input, a))
  }

  /** What the run knows is what upstream answered to its own requests. */
  ghost predicate Answered(oracle: Oracle, input: Input, base: Sent, a: Answers) {
    && a.quote.Some?
    && Found(oracle, input, base, a)
    && Quoted(oracle, input, base + Opening(input, a.signed), a)
    && oracle.pay(base + Opening(input, a.signed) + Quotes(input, a) + [Paying(oracle, input, a)]) == Some(a.txHash)
  }

  /** The signed challenge is the one that upstream gave, signed by the signer. */
  ghost predicate SignedFor(oracle: Oracle, input: Input, base: Sent, signed: string) {
    var xdr := oracle.challenge(base + [Challenge(input.publicKey)]);
    xdr.Some? && xdr.value != "" && oracle.sign(xdr.value) == Some(signed) && signed != ""
  }

  ghost predicate Found(oracle: Oracle, input: Input, base: Sent, a: Answers) {
    && a.beneficiary == oracle.beneficiary(base + Start(input))
    && oracle.connectors(base + Opening(input, a.signed)) == Some(a.connectors)
    && SignedFor(oracle, input, base + Start(input), a.signed)
  }

  ghost predicate Quoted(oracle: Oracle, input: Input, base: Sent, a: Answers)
    requires a.quote.Some?
  {
    var q := a.quote.value;
    && oracle.quote(base + [Quoting(input, a)]) == Some(QuoteReply(q.quoteId, q.acceptedAsset, q.sendAmount))
    && q.raw == ""
    && (Requires(input.fundingAsset, a.quote) ==>
          a.sendMax.Some? && a.sendMax == oracle.stellarQuote(base + Quotes(input, a)))
  }

  // ---- What the plan says ----

  datatype Kind =
    | KAssociations | KWallets | KBeneficiary | KChallenge | KSubmit | KConnectors | KQuote | KStellarQuote | KPay
    | KExecute

  function KindOf(r: Request): Kind {
    match r
    case ListAssociations => KAssociations
    case ListWallets(_) => KWallets
    case GetBeneficiary(_, _) => KBeneficiary
    case Challenge(_) => KChallenge
    case Submit(_) => KSubmit
    case QueryConnectors(_, _) => KConnectors
    case GetQuote(_, _, _, _) => KQuote
    case GetStellarQuote(_, _, _) => KStellarQuote
    case Pay(_, _) => KPay
    case Execute(_, _, _, _) => KExecute
  }

  /** The place of each kind of request in a run. */
  function Place(k: Kind): nat {
    match k
    case KAssociations => 1
    case KWallets => 2
    case KBeneficiary => 3
    case KChallenge => 4
    case KSubmit => 5
    case KConnectors => 6
    case KQuote => 7
    case KStellarQuote => 8
    case KPay => 9
    case KExecute => 10
  }

  /** The step of the recipe that makes the request. */
  function StepOf(k: Kind): nat {
    if Place(k) <= 4 then Place(k) else Place(k) - 1
  }

  lemma OpeningPlace(input: Input, signed: string, i: nat)
    requires i < 6
    ensures Place(KindOf(Opening(input, signed)[i])) == i + 1
  {
    if i >= 3 {
      assert Opening(input, signed)[i] == Entry(input, signed)[i - 3];
    }
  }

  lemma LaterPlace(quote: Request, converting: Sent, settlement: Sent, i: nat)
    requires quote.GetQuote? && (converting == [] || (|converting| == 1 && converting[0].GetStellarQuote?))
    requires settlement == [] || (|settlement| == 2 && settlement[0].Pay? && settlement[1].Execute?)
    requires i < |[quote] + converting + settlement|
    ensures Place(KindOf(([quote] + converting + settlement)[i])) ==
            if i == 0 then 7 else if converting == [] then i + 8 else i + 7
  {
  }

  /** Only the place of the Stellar quote may be skipped. */
  lemma PlaceAt(oracle: Oracle, input: Input, a: Answers, i: nat)
    requires i < |Plan(oracle, input, a)|
    ensures Place(KindOf(Plan(oracle, input, a)[i])) ==
            if i < 7 || Requires(input.fundingAsset, a.quote) then i + 1 else i + 2
  {
    var plan := Plan(oracle, input, a);
    if i < 6 {
      assert plan[i] == Opening(input, a.signed)[i];
      OpeningPlace(input, a.signed, i);
    } else {
      assert plan[i] == (Quotes(input, a) + Settlement(oracle, input, a))[i - 6];
      LaterPlace(Quoting(input, a), Converting(input, a), Settlement(oracle, input, a), i - 6);
    }
  }

  lemma SentAt(base: Sent, plan: Sent, sent: Sent, i: nat)
    requires Upto(base, plan, sent) && |base| <= i < |sent|
    ensures i - |base| < |plan| && sent[i] == plan[i - |base|]
  {
  }

  lemma PlanIsOrdered(oracle: Oracle, input: Input, a: Answers, i: nat, j: nat)
    requires i < j < |Plan(oracle, input, a)|
    ensures Place(KindOf(Plan(oracle, input, a)[i])) < Place(KindOf(Plan(oracle, input, a)[j]))
  {
    PlaceAt(oracle, input, a, i);
    PlaceAt(oracle, input, a, j);
  }

  /** The requests of a run come in the order of the steps, none of them twice. */
  lemma InOrder(oracle: Oracle, input: Input, a: Answers, base: Sent, sent: Sent, i: nat, j: nat)
    requires Upto(base, Plan(oracle, input, a), sent) && |base| <= i < j < |sent|
    ensures Place(KindOf(sent[i])) < Place(KindOf(sent[j]))
  {
    SentAt(base, Plan(oracle, input, a), sent, i);
    SentAt(base, Plan(oracle, input, a), sent, j);
    PlanIsOrdered(oracle, input, a, i - |base|, j - |base|);
  }

  lemma Parts(plan: Sent, opening: Sent, quotes: Sent, settlement: Sent)
    requires |opening| == 6 && |settlement| == 2 && 1 <= |quotes| <= 2
    requires plan == opening + (quotes + settlement)
    ensures |plan| == 8 + |quotes|
    ensures plan[6] == quotes[0] && plan[..7] == opening + [quotes[0]]
    ensures plan[|plan| - 2] == settlement[0] && plan[|plan| - 1] == settlement[1]
    ensures plan[..|plan| - 1] == opening + quotes + [settlement[0]]
    ensures |plan| == 10 ==> plan[7] == quotes[1] && plan[..8] == opening + quotes
  {
  }

  lemma PlanParts(oracle: Oracle, input: Input, a: Answers, plan: Sent)
    requires a.quote.Some? && plan == Plan(oracle, input, a)
    ensures |plan| == if Requires(input.fundingAsset, a.quote) then 10 else 9
    ensures plan[6] == Quoting(input, a) && plan[..7] == Opening(input, a.signed) + [Quoting(input, a)]
    ensures plan[|plan| - 2] == Paying(oracle, input, a) && plan[|plan| - 1] == Executing(input, a)
    ensures plan[..|plan| - 1] == Opening(input, a.signed) + Quotes(input, a) + [Paying(oracle, input, a)]
    ensures |plan| == 10 ==>
              plan[7] == Converting(input, a)[0] && plan[..8] == Opening(input, a.signed) + Quotes(input, a)
  {
    var opening, quotes, settlement := Opening(input, a.signed), Quotes(input, a), Settlement(oracle, input, a);
    assert quotes[0] == Quoting(input, a);
    Parts(plan, opening, quotes, settlement);
  }

  /** A completed run executes the quote whose amount it paid, with the hash of that payment
      and the destination it had quoted. */
  lemma PaidAsQuoted(oracle: Oracle, input: Input, base: Sent, a: Answers, plan: Sent)
    requires Answered(oracle, input, base, a) && plan == Plan(oracle, input, a)
    ensures |plan| >= 9 && plan[6].GetQuote? && plan[|plan| - 2].Pay? && plan[|plan| - 1].Execute?
    ensures oracle.quote(base + plan[..7]).Some?
    ensures plan[|plan| - 1].quoteId == oracle.quote(base + plan[..7]).value.quoteId
    ensures plan[|plan| - 2].payment.amount == oracle.quote(base + plan[..7]).value.sendAmount
    ensures oracle.pay(base + plan[..|plan| - 1]) == Some(plan[|plan| - 1].txHash)
    ensures plan[|plan| - 1].destination == plan[6].destination
  {
    PlanParts(oracle, input, a, plan);
    Collections.Assoc(base, Opening(input, a.signed), [Quoting(input, a)]);
    Collections.Assoc(base, Opening(input, a.signed) + Quotes(input, a), [Paying(oracle, input, a)]);
    Collections.Assoc(base, Opening(input, a.signed), Quotes(input, a));
  }

  /** The payment converts exactly when a Stellar quote was fetched in the run, on the terms
      of that quote and of the Connect quote. */
  lemma ConvertsAsQuoted(oracle: Oracle, input: Input, base: Sent, a: Answers, plan: Sent)
    requires Answered(oracle, input, base, a) && plan == Plan(oracle, input, a)
    ensures |plan| >= 9 && plan[|plan| - 2].Pay?
    ensures |plan| == 10 <==> Requires(input.fundingAsset, a.quote)
    ensures var payment := plan[|plan| - 2].payment;
      if |plan| == 10 then
        && plan[7] == GetStellarQuote(payment.fromAsset, payment.toAsset, payment.amount)
        && oracle.stellarQuote(base + plan[..8]) == Some(payment.sendMax)
        && payment.toAsset == a.quote.value.acceptedAsset != ""
      else payment.toAsset == "" && payment.sendMax == ""
  {
    PlanParts(oracle, input, a, plan);
    if |plan| == 10 {
      Collections.Assoc(base, Opening(input, a.signed), Quotes(input, a));
      AcceptedIsNotEmpty(a.quote.value.acceptedAsset);
    }
  }

  /** Two assets are Equal exactly when they are the same, the native one having one form. */
  lemma RequiresIff(funding: Asset, quote: Option<Quote>)
    ensures Requires(funding, quote) <==>
            quote.Some? && ParseAsset(quote.value.acceptedAsset).Some?
            && funding != ParseAsset(quote.value.acceptedAsset).value
    ensures Parsed(funding) && quote.Some? ==>
              (Requires(funding, quote) <==>
                 Canonical(quote.value.acceptedAsset).Some?
                 && funding.String() != Canonical(quote.value.acceptedAsset).value)
  {
    if quote.Some? {
      var accepted := ParseAsset(quote.value.acceptedAsset);
      if accepted.Some? && Parsed(funding) {
        ParsedIsParsed(quote.value.acceptedAsset);
        EqualIffPrintedSame(funding, accepted.value);
      }
    }
  }

  /** A completed run makes ten requests exactly when the asset that the Connect quote accepts
      parses and is another than the one the payment is funded from, and nine otherwise. */
  lemma ConvertsIff(oracle: Oracle, input: Input, base: Sent, a: Answers, plan: Sent)
    requires Answered(oracle, input, base, a) && plan == Plan(oracle, input, a)
    ensures |plan| in {9, 10} && oracle.quote(base + plan[..7]).Some?
    ensures var accepted := ParseAsset(oracle.quote(base + plan[..7]).value.acceptedAsset);
      && (|plan| == 10 <==> accepted.Some? && input.fundingAsset != accepted.value)
      && (Parsed(input.fundingAsset) ==>
            (|plan| == 10 <==> accepted.Some? && input.fundingAsset.String() != accepted.value.String()))
  {
    PlanParts(oracle, input, a, plan);
    Collections.Assoc(base, Opening(input, a.signed), [Quoting(input, a)]);
    RequiresIff(input.fundingAsset, a.quote);
  }

  lemma OpeningIs(input: Input, signed: string)
    ensures Opening(input, signed) ==
            [ListAssociations, ListWallets(input.associationId),
             GetBeneficiary(input.associationId, input.beneficiaryId), Challenge(input.publicKey), Submit(signed),
             QueryConnectors(input.country, input.payoutMethod)]
  {
  }

  lemma PlanStart(oracle: Oracle, input: Input, a: Answers, plan: Sent)
    requires plan == Plan(oracle, input, a)
    ensures |plan| >= 6 && plan[..6] == Opening(input, a.signed)
    ensures plan[..3] == Start(input) && plan[..4] == Start(input) + [Challenge(input.publicKey)]
    ensures plan[4] == Submit(a.signed)
  {
    OpeningIs(input, a.signed);
    assert plan[..6] == Opening(input, a.signed);
    assert plan[..3] == plan[..6][..3] && plan[..4] == plan[..6][..4] && plan[4] == plan[..6][4];
  }

  /** What every request of a completed run carries. */
  lemma RequestsCarry(oracle: Oracle, input: Input, base: Sent, a: Answers, plan: Sent)
    requires Answered(oracle, input, base, a) && plan == Plan(oracle, input, a)
    ensures |plan| >= 9
    ensures plan[..6] ==
            [ListAssociations, ListWallets(input.associationId),
             GetBeneficiary(input.associationId, input.beneficiaryId), Challenge(input.publicKey), Submit(a.signed),
             QueryConnectors(input.country, input.payoutMethod)]
    ensures plan[6].GetQuote? && plan[6].connectorId == a.selected.id && plan[6].amount == input.sendAmount
    ensures plan[6].currency == a.selected.acceptedAsset
    ensures plan[|plan| - 2].Pay? && plan[|plan| - 2].walletId == input.walletId
    ensures plan[|plan| - 2].payment.fromAsset == input.fundingAsset.String()
    ensures plan[|plan| - 2].payment.memo == input.memo && plan[|plan| - 2].payment.memoType == input.memoType
    ensures plan[|plan| - 1].Execute? && plan[|plan| - 1].memo == input.memo
  {
    PlanParts(oracle, input, a, plan);
    PlanStart(oracle, input, a, plan);
    OpeningIs(input, a.signed);
  }

  /** The challenge submitted is the one given for the key, as the signer signed it, and the
      quoted destination is the first of the beneficiary's for the method and the country. */
  lemma AnswersAreUsed(oracle: Oracle, input: Input, base: Sent, a: Answers, plan: Sent) returns (i: nat)
    requires Answered(oracle, input, base, a) && plan == Plan(oracle, input, a)
    requires a.beneficiary.Some? && FirstDestination(a.beneficiary.value, input.payoutMethod, input.country).Some?
    ensures |plan| >= 9 && plan[4].Submit? && plan[6].GetQuote?
    ensures oracle.challenge(base + plan[..4]).Some?
    ensures oracle.sign(oracle.challenge(base + plan[..4]).value) == Some(plan[4].signed)
    ensures oracle.beneficiary(base + plan[..3]).Some?
    ensures var ds := oracle.beneficiary(base + plan[..3]).value;
      && i < |ds| && ds[i].payoutMethod == input.payoutMethod && ds[i].country == input.country
      && (forall j :: 0 <= j < i ==> ds[j].payoutMethod != input.payoutMethod || ds[j].country != input.country)
      && plan[6].destination == ds[i].raw
  {
    PlanParts(oracle, input, a, plan);
    PlanStart(oracle, input, a, plan);
    Collections.Assoc(base, Start(input), [Challenge(input.publicKey)]);
    i := DestinationIsFirst(a.beneficiary.value, input.payoutMethod, input.country);
  }

  lemma AcceptedIsNotEmpty(s: string)
    requires ParseAsset(s).Some?
    ensures s != ""
  {
  }

  /** Decoding a quote leaves its text empty, so no completed run pays to an account. */
  lemma PaysNobody(oracle: Oracle, input: Input, base: Sent, a: Answers)
    requires Answered(oracle, input, base, a)
    ensures Paying(oracle, input, a).payment.toPublicKey == ""
    ensures Paying(oracle, input, a) in Plan(oracle, input, a)
  {
    var plan := Plan(oracle, input, a);
    assert plan[|plan| - 2] == Paying(oracle, input, a);
  }

  /** A payment names an account exactly if the text of its quote does. */
  lemma PaysSomebodyIff(oracle: Oracle, input: Input, a: Answers)
    requires a.quote.Some?
    ensures Paying(oracle, input, a).payment.toPublicKey != "" <==>
            a.quote.value.raw != "" && oracle.clearingAccount(a.quote.value.raw) != ""
    ensures a.quote.value.raw != "" ==>
              Paying(oracle, input, a).payment.toPublicKey == oracle.clearingAccount(a.quote.value.raw)
  {
  }

  // ---- An upstream with which every run gets through ----

  function Bank(input: Input): Connector {
    Connector("connector-1", input.payoutMethod, true, "XLM")
  }

  function Account(input: Input): Destination {
    Destination(input.payoutMethod, input.country, "{}")
  }

  const REPLY: QuoteReply := QuoteReply("quote-1", "XLM", "10")
  const QUOTE: Quote := Quote("quote-1", "XLM", "10", "")

  function Obliging(input: Input): Oracle {
    Oracle(s => Some([]), s => Some([]), s => Some([Account(input)]), true, s => Some("challenge-1"), t => Some(t),
           s => Some(Login([], [], "3600", 0)), s => Some([Bank(input)]), s => Some(REPLY), s => Some("12"),
           s => Some("hash-1"), s => Some(Executed("tx-1", "ok")), t => t)
  }

  function Obliged(input: Input): Answers {
    Answers(Some([Account(input)]), "challenge-1", [Bank(input)], Bank(input), Some(QUOTE), Some("12"), "hash-1")
  }

  lemma QuoteIsNative(input: Input)
    ensures Requires(input.fundingAsset, Some(QUOTE)) <==> !input.fundingAsset.IsNative()
  {
    ParseNative("XLM");
  }

  lemma ObligingChoices(input: Input)
    ensures Chosen(NO_CONNECTOR, [Bank(input)], input.payoutMethod, Bank(input))
    ensures FirstDestination([Account(input)], input.payoutMethod, input.country) == Some("{}")
  {
  }

  lemma ObligingAnswers(oracle: Oracle, input: Input, base: Sent, a: Answers)
    requires oracle == Obliging(input) && a == Obliged(input)
    ensures Answered(oracle, input, base, a)
  {
    assert Found(oracle, input, base, a);
    assert Quoted(oracle, input, base + Opening(input, a.signed), a);
  }

  /** For every input there is an upstream with which a run gets through: it has an active
      connector and a destination, and quotes in the native asset, so that the run converts
      exactly if it funds from another one. */
  lemma SomeRunCompletes(input: Input)
    ensures Answered(Obliging(input), input, [], Obliged(input))
    ensures Obliging(input).connectors(Opening(input, Obliged(input).signed)) == Some([Bank(input)])
    ensures Chosen(NO_CONNECTOR, [Bank(input)], input.payoutMethod, Obliged(input).selected)
    ensures FirstDestination([Account(input)], input.payoutMethod, input.country) == Some("{}")
    ensures Requires(input.fundingAsset, Obliged(input).quote) <==> !input.fundingAsset.IsNative()
  {
    ObligingAnswers(Obliging(input), input, [], Obliged(input));
    ObligingChoices(input);
    QuoteIsNative(input);
  }

  /** The last request is that of the step, and got no answer. */
  predicate Refused(oracle: Oracle, sent: Sent, step: nat) {
    && sent != [] && step == StepOf(KindOf(sent[|sent| - 1]))
    && match sent[|sent| - 1]
       case ListAssociations => oracle.associations(sent).None?
       case ListWallets(_) => oracle.wallets(sent).None?
       case GetBeneficiary(_, _) => oracle.beneficiary(sent).None?
       case Challenge(_) => oracle.challenge(sent).None?
       case Submit(_) => oracle.submit(sent).None?
       case QueryConnectors(_, _) => oracle.connectors(sent).None?
       case GetQuote(_, _, _, _) => oracle.quote(sent).None?
       case GetStellarQuote(_, _, _) => oracle.stellarQuote(sent).None?
       case Pay(_, _) => oracle.pay(sent).None?
       case Execute(_, _, _, _) => oracle.execute(sent).None?
  }

  /** The last request was for a challenge, and what it brought could not be signed. */
  ghost predicate Unsigned(oracle: Oracle, sent: Sent) {
    && sent != [] && sent[|sent| - 1].Challenge? && oracle.challenge(sent).Some?
    && var xdr := oracle.sign(oracle.challenge(sent).value); xdr.None? || xdr.value == ""
  }

  /** The session that a reply to a signed challenge brings, if its lifetime can be read. */
  function Issued(login: Option<Login>): (r: Option<Fields>)
    ensures r.Some? ==> login.Some? && r.value.track == Connect && r.value.idToken == login.value.idToken
    ensures r.Some? ==> r.value.refreshToken == login.value.refreshToken
    ensures r.Some? ==> AutoRefresh.LastsAsSaid(login.value.expiresIn, login.value.arrival, r.value.expiresAt)
  {
    match login
    case None => None
    case Some(l) =>
      match AutoRefresh.ExpiryFromExpiresIn(l.expiresIn, l.arrival)
      case None => None
      case Some(expiry) =>
        AutoRefresh.ExpiryAsSaid(l.expiresIn, l.arrival);
        Some(Fields(Connect, l.idToken, l.refreshToken, expiry))
  }

  /** The last request was answered with an empty challenge, or an unreadable lifetime. */
  ghost predicate Unusable(oracle: Oracle, sent: Sent) {
    && sent != []
    && match sent[|sent| - 1]
       case Challenge(_) => oracle.challenge(sent) == Some("")
       case Submit(_) => oracle.submit(sent).Some? && Issued(oracle.submit(sent)).None?
       case _ => false
  }

  // ---- Following the plan ----

  /** The requests since base are the first of the plan, in its order. */
  ghost predicate Upto(base: Sent, plan: Sent, sent: Sent) {
    |base| <= |sent| <= |base| + |plan| && sent == base + plan[..|sent| - |base|]
  }

  lemma Extend(base: Sent, plan: Sent, before: Sent, sent: Sent)
    requires Upto(base, plan, before) && |before| < |base| + |plan|
    requires sent == before + [plan[|before| - |base|]]
    ensures Upto(base, plan, sent)
  {
    var k := |before| - |base|;
    assert plan[..k + 1] == plan[..k] + [plan[k]];
  }

  lemma UptoMore(base: Sent, plan: Sent, rest: Sent, sent: Sent)
    requires Upto(base, plan, sent)
    ensures Upto(base, plan + rest, sent)
  {
    var k := |sent| - |base|;
    assert (plan + rest)[..k] == plan[..k];
  }

  lemma UptoAfter(base: Sent, first: Sent, rest: Sent, sent: Sent)
    requires Upto(base + first, rest, sent)
    ensures Upto(base, first + rest, sent)
  {
    var k := |sent| - |base|;
    assert (first + rest)[..k] == first + rest[..k - |first|];
  }

  /** A plan of a first request and others, of which some were made. */
  lemma UptoFirst(base: Sent, first: Request, rest: Sent, sent: Sent)
    requires sent == base || sent == base + [first]
    ensures Upto(base, [first] + rest, sent)
  {
  }

  lemma UptoLast(base: Sent, first: Request, rest: Sent, sent: Sent)
    requires sent == base + [first] || sent == base + [first] + rest
    ensures Upto(base, [first] + rest, sent)
    ensures sent == base + [first] + rest ==> sent == base + ([first] + rest)
  {
    assert ([first] + rest)[..1] == [first];
    assert ([first] + rest)[..1 + |rest|] == [first] + rest;
  }

  /** The payment is fixed by the two quotes, and the execution by more than its quote. */
  lemma SamePaying(oracle: Oracle, input: Input, a: Answers, b: Answers)
    requires a.quote == b.quote && a.quote.Some? && a.sendMax == b.sendMax
    ensures Paying(oracle, input, a) == Paying(oracle, input, b)
  {
  }

  lemma UptoSigningIn(input: Input, signed: string, base: Sent, sent: Sent)
    requires sent == base || sent == base + [Challenge(input.publicKey)]
             || sent == base + [Challenge(input.publicKey)] + [Submit(signed)]
    ensures Upto(base, SigningIn(input, signed), sent)
    ensures |sent| == |base| + 2 ==> sent == base + SigningIn(input, signed)
  {
    var plan := SigningIn(input, signed);
    assert plan[..1] == [plan[0]] && plan[..2] == [plan[0]] + [plan[1]];
  }

  lemma SameConverting(input: Input, a: Answers, b: Answers)
    requires a.quote == b.quote
    ensures Converting(input, a) == Converting(input, b)
  {
  }

  lemma UptoOpening(oracle: Oracle, input: Input, a: Answers, base: Sent, sent: Sent)
    requires Upto(base, Opening(input, a.signed), sent)
    ensures Upto(base, Plan(oracle, input, a), sent)
  {
    UptoMore(base, Opening(input, a.signed), Quotes(input, a) + Settlement(oracle, input, a), sent);
  }

  lemma UptoQuotes(oracle: Oracle, input: Input, a: Answers, base: Sent, sent: Sent)
    requires Upto(base + Opening(input, a.signed), Quotes(input, a), sent)
    ensures Upto(base, Plan(oracle, input, a), sent)
  {
    UptoMore(base + Opening(input, a.signed), Quotes(input, a), Settlement(oracle, input, a), sent);
    UptoAfter(base, Opening(input, a.signed), Quotes(input, a) + Settlement(oracle, input, a), sent);
  }

  lemma UptoSettlement(oracle: Oracle, input: Input, a: Answers, base: Sent, sent: Sent)
    requires Upto(base + Opening(input, a.signed) + Quotes(input, a), Settlement(oracle, input, a), sent)
    ensures Upto(base, Plan(oracle, input, a), sent)
  {
    UptoAfter(base + Opening(input, a.signed), Quotes(input, a), Settlement(oracle, input, a), sent);
    UptoAfter(base, Opening(input, a.signed), Quotes(input, a) + Settlement(oracle, input, a), sent);
  }

  lemma WholePlan(base: Sent, opening: Sent, quotes: Sent, settlement: Sent)
    ensures base + opening + quotes + settlement == base + (opening + (quotes + settlement))
  {
  }

  lemma KeepsQuotes(oracle: Oracle, input: Input, base: Sent, a: Answers, b: Answers)
    requires b == a.(txHash := b.txHash)
    requires a.quote.Some? && Quoted(oracle, input, base, a)
    ensures Quotes(input, b) == Quotes(input, a) && Quoted(oracle, input, base, b)
  {
    SameConverting(input, a, b);
  }

  // ---- The runner ----

  datatype PaymentResult = PaymentResult(transactionId: string, status: string, txHash: string, quoteId: string,
                                         connector: Connector)

  class Runner {
    const oracle: Oracle
    const hasClient: bool
    const store: MemoryStore
    const input: Input
    const businessSession: Session?

    var associations: seq<string>
    var wallets: seq<string>
    var beneficiary: Option<seq<Destination>>
    var connectSession: Session?
    var connectors: seq<Connector>
    var selected: Connector
    var connectQuote: Option<Quote>
    var stellarQuote: Option<string>
    var walletTxHash: string
    var executeResult: Option<Executed>

    var sent: Sent                  // the requests that left the client, oldest first
    ghost var signed: string        // the challenge as last signed

    constructor (oracle: Oracle, hasClient: bool, store: MemoryStore, input: Input, businessSession: Session?)
      ensures this.oracle == oracle && this.hasClient == hasClient && this.store == store && this.input == input
      ensures this.businessSession == businessSession
      ensures sent == [] && selected == NO_CONNECTOR && connectQuote == None && stellarQuote == None
    {
      this.oracle, this.hasClient, this.store, this.input := oracle, hasClient, store, input;
      this.businessSession := businessSession;
      associations, wallets, beneficiary, connectSession, connectors := [], [], None, null, [];
      selected, connectQuote, stellarQuote, walletTxHash, executeResult := NO_CONNECTOR, None, None, "", None;
      sent := [];
    }

    ghost function Known(): Answers
      reads `beneficiary, `signed, `connectors, `selected, `connectQuote, `stellarQuote, `walletTxHash
    {
      Answers(beneficiary, signed, connectors, selected, connectQuote, stellarQuote, walletTxHash)
    }

    predicate Authenticated()
      reads businessSession
    {
      businessSession != null && businessSession.track == Business
    }

    predicate InputIsValid()
      reads businessSession
    {
      && hasClient && Authenticated()
      && input.seed != "" && input.publicKey != ""
      && input.associationId != "" && input.walletId != "" && input.beneficiaryId != ""
      && input.payoutMethod != "" && input.country != "" && input.sendAmount != ""
    }

    /** The track guard that comes before every authenticated call. */
    static predicate Guard(s: Session?, required: Track)
      reads s
    {
      s == null || s.track == required
    }

    method StepListAssociations() returns (err: Option<Problem>)
      modifies `sent, `associations
      ensures err == Some(WrongTrack) <==> businessSession != null && old(businessSession.track) != Business
      ensures err.Some? ==> err.value in {WrongTrack, Remote(1)}
      ensures sent == if err == Some(WrongTrack) then old(sent) else old(sent) + [ListAssociations]
      ensures err == None ==> Some(associations) == oracle.associations(sent)
      ensures err.Some? && err.value.Remote? ==> Refused(oracle, sent, err.value.step)
    {
      if !Guard(businessSession, Business) {
        return Some(WrongTrack);
      }
      sent := sent + [ListAssociations];
      var r := oracle.associations(sent);
      if r.None? {
        return Some(Remote(1));
      }
      associations := r.value;
      err := None;
    }

    method StepListWallets() returns (err: Option<Problem>)
      modifies `sent, `wallets
      ensures err == Some(WrongTrack) <==> businessSession != null && old(businessSession.track) != Business
      ensures err.Some? ==> err.value in {WrongTrack, Remote(2)}
      ensures sent == if err == Some(WrongTrack) then old(sent) else old(sent) + [ListWallets(input.associationId)]
      ensures err == None ==> Some(wallets) == oracle.wallets(sent)
      ensures err.Some? && err.value.Remote? ==> Refused(oracle, sent, err.value.step)
    {
      if !Guard(businessSession, Business) {
        return Some(WrongTrack);
      }
      sent := sent + [ListWallets(input.associationId)];
      var r := oracle.wallets(sent);
      if r.None? {
        return Some(Remote(2));
      }
      wallets := r.value;
      err := None;
    }

    method StepGetBeneficiary() returns (err: Option<Problem>)
      modifies `sent, `beneficiary
      ensures err == Some(WrongTrack) <==> businessSession != null && old(businessSession.track) != Business
      ensures err.Some? ==> err.value in {WrongTrack, Remote(3)}
      ensures sent == if err == Some(WrongTrack) then old(sent)
                      else old(sent) + [GetBeneficiary(input.associationId, input.beneficiaryId)]
      ensures err == None ==> beneficiary.Some? && beneficiary == oracle.beneficiary(sent)
      ensures err.Some? && err.value.Remote? ==> Refused(oracle, sent, err.value.step)
    {
      if !Guard(businessSession, Business) {
        return Some(WrongTrack);
      }
      sent := sent + [GetBeneficiary(input.associationId, input.beneficiaryId)];
      var r := oracle.beneficiary(sent);
      if r.None? {
        return Some(Remote(3));
      }
      beneficiary := r;
      err := None;
    }

    /** SEP10Flow.Login: the challenge is fetched, signed and submitted. Nothing is stored. */
    method Login() returns (r: Option<Fields>, err: Option<Problem>)
      requires store.Valid() && SessionIsApart()
      modifies `sent, `signed
      ensures store.Valid() && SessionIsApart() && SessionKept()
      ensures r.Some? <==> err == None
      ensures err == Some(NoSigner) <==> !oracle.hasSigner
      ensures err == Some(NoSigner) ==> sent == old(sent)
      ensures err != Some(BadKeypair)
      ensures Upto(old(sent), SigningIn(input, signed), sent)
      ensures err.Some? ==> Explained(err.value)
      ensures err == None ==> sent == old(sent) + SigningIn(input, signed)
      ensures err == None ==> SignedFor(oracle, input, old(sent), signed)
      ensures err == None ==> Issued(oracle.submit(sent)) == r
    {
      ghost var base := sent;
      if !oracle.hasSigner {
        UptoSigningIn(input, signed, base, sent);
        return None, Some(NoSigner);
      }
      var challenge;
      challenge, err := GetChallenge();
      UptoSigningIn(input, signed, base, sent);
      if err.Some? {
        return None, err;
      }
      var xdr := oracle.sign(challenge);
      if xdr.None? || xdr.value == "" {
        return None, Some(CannotSign);
      }
      r, err := SubmitSigned(xdr.value);
      UptoSigningIn(input, signed, base, sent);
    }

    method GetChallenge() returns (xdr: string, err: Option<Problem>)
      requires store.Valid() && SessionIsApart()
      modifies `sent
      ensures store.Valid() && SessionIsApart() && SessionKept()
      ensures sent == old(sent) + [Challenge(input.publicKey)]
      ensures err.Some? ==> err.value in {BadReply, Remote(4)}
      ensures err == Some(Remote(4)) ==> Refused(oracle, sent, 4)
      ensures err == Some(BadReply) ==> Unusable(oracle, sent)
      ensures err == None ==> xdr != "" && oracle.challenge(sent) == Some(xdr)
    {
      sent := sent + [Challenge(input.publicKey)];
      var r := oracle.challenge(sent);
      if r.None? {
        return "", Some(Remote(4));
      }
      xdr := r.value;
      err := if xdr == "" then Some(BadReply) else None;
    }

    method SubmitSigned(xdr: string) returns (r: Option<Fields>, err: Option<Problem>)
      requires store.Valid() && SessionIsApart()
      modifies `sent, `signed
      ensures store.Valid() && SessionIsApart() && SessionKept()
      ensures r.Some? <==> err == None
      ensures signed == xdr && sent == old(sent) + [Submit(xdr)]
      ensures err.Some? ==> err.value in {BadReply, Remote(4)}
      ensures err == Some(Remote(4)) ==> Refused(oracle, sent, 4)
      ensures err == Some(BadReply) ==> Unusable(oracle, sent)
      ensures err == None ==> Issued(oracle.submit(sent)) == r
    {
      signed := xdr;
      sent := sent + [Submit(xdr)];
      var login := oracle.submit(sent);
      if login.None? {
        return None, Some(Remote(4));
      }
      r := Issued(login);
      err := if r.None? then Some(BadReply) else None;
    }

    /** Signing in puts a new session under the Connect track, in place of the one there. */
    method StepSignInConnect() returns (err: Option<Problem>)
      requires store.Valid() && SessionIsApart()
      modifies `sent, `signed, `connectSession, store, store.Held(Connect)
      ensures store.Valid() && SessionKept() && unchanged(`beneficiary, `selected)
      ensures err == Some(BadKeypair) <==> !IsSeed(input.seed) || !IsPublicKey(input.publicKey)
      ensures err == Some(NoSigner) <==> IsSeed(input.seed) && IsPublicKey(input.publicKey) && !oracle.hasSigner
      ensures err in {Some(BadKeypair), Some(NoSigner)} ==> sent == old(sent)
      ensures Upto(old(sent), SigningIn(input, signed), sent)
      ensures err.Some? ==> Explained(err.value)
      ensures err == None ==> sent == old(sent) + SigningIn(input, signed)
      ensures err == None ==> SignedFor(oracle, input, old(sent), signed)
      ensures err == None ==> connectSession != null && fresh(connectSession) && connectSession.track == Connect
      ensures err == None ==> Issued(oracle.submit(sent)) == Some(connectSession.Contents())
      ensures err == None ==> var login := oracle.submit(sent).value;
        && connectSession.idToken[..] == login.idToken && connectSession.refreshToken[..] == login.refreshToken
        && AutoRefresh.LastsAsSaid(login.expiresIn, login.arrival, connectSession.expiresAt)
      ensures err == None ==> IsStored() && store.sessions == old(store.sessions)[Connect := connectSession]
      ensures err != None ==> connectSession == old(connectSession) && store.sessions == old(store.sessions)
    {
      if !IsSeed(input.seed) || !IsPublicKey(input.publicKey) {
        return Some(BadKeypair);
      }
      var fields;
      fields, err := Login();
      if err.Some? {
        return;
      }
      Hold(fields.value);
    }

    /** What signing in erases is not the Business session of the input. */
    lemma HeldIsAnother()
      requires store.Valid() && SessionIsApart() && Authenticated()
      ensures businessSession !in store.Held(Connect)
      ensures businessSession.idToken !in store.Held(Connect) && businessSession.refreshToken !in store.Held(Connect)
    {
      assert store.Apart(businessSession);
    }

    /** The Connect session of the run is the one in the store. */
    predicate IsStored()
      reads `connectSession, store`sessions
    {
      Connect in store.sessions && store.sessions[Connect] == connectSession
    }

    /** Put refuses only nil and erased sessions, so it takes this one. */
    method Persist(fields: Fields) returns (s: Session)
      requires store.Valid() && SessionIsApart() && fields.track == Connect
      modifies store, store.Held(Connect)
      ensures store.Valid() && fresh(s) && s.Contents() == fields
      ensures store.sessions == old(store.sessions)[Connect := s]
      ensures SessionKept()
    {
      if Authenticated() {
        HeldIsAnother();
      }
      s := new Session(Connect, fields.idToken, fields.refreshToken, fields.expiresAt, input.publicKey);
      var e := store.Put(s);
    }

    /** The new session is stored, and is the run's own. */
    method Hold(fields: Fields)
      requires store.Valid() && SessionIsApart() && fields.track == Connect
      modifies `connectSession, store, store.Held(Connect)
      ensures store.Valid() && SessionKept() && unchanged(`beneficiary, `selected, `sent, `signed)
      ensures connectSession != null && fresh(connectSession) && connectSession.Contents() == fields
      ensures IsStored() && store.sessions == old(store.sessions)[Connect := connectSession]
    {
      RunnerIsOutside();
      var s := Persist(fields);
      Take(s);
    }

    method Take(s: Session)
      requires store.Valid()
      modifies `connectSession
      ensures store.Valid() && SessionKept() && connectSession == s && s.Contents() == old(s.Contents())
    {
      RunnerIsOutside();
      connectSession := s;
    }

    /** The session of the input shares no buffer with a stored one, unless it is stored. */
    ghost predicate SessionIsApart()
      reads businessSession, if businessSession != null then businessSession.released else {}, store, store.Heap()
    {
      businessSession != null ==> businessSession.Valid() && store.Apart(businessSession)
    }

    /** A Business session keeps its track and tokens. */
    twostate predicate SessionKept()
      reads businessSession, if businessSession != null then businessSession.Buffers() else {}
    {
      old(Authenticated()) ==> Authenticated() && businessSession.Contents() == old(businessSession.Contents())
    }

    method StepDiscoverConnectors() returns (err: Option<Problem>)
      modifies `sent, `connectors
      ensures err == Some(BadFilter) <==> !IsEnum(input.country) || !IsEnum(input.payoutMethod)
      ensures err == Some(WrongTrack) <==>
              IsEnum(input.country) && IsEnum(input.payoutMethod)
              && connectSession != null && old(connectSession.track) != Connect
      ensures sent == if err in {Some(BadFilter), Some(WrongTrack)} then old(sent)
                      else old(sent) + [QueryConnectors(input.country, input.payoutMethod)]
      ensures err == None ==> Some(connectors) == oracle.connectors(sent)
      ensures err.Some? && err.value.Remote? ==> Refused(oracle, sent, err.value.step)
      ensures err.Some? ==> err.value in {BadFilter, WrongTrack, Remote(5)}
    {
      if !IsEnum(input.country) || !IsEnum(input.payoutMethod) {
        return Some(BadFilter);
      }
      if !Guard(connectSession, Connect) {
        return Some(WrongTrack);
      }
      sent := sent + [QueryConnectors(input.country, input.payoutMethod)];
      var r := oracle.connectors(sent);
      if r.None? {
        return Some(Remote(5));
      }
      connectors := r.value;
      err := None;
    }

    method SelectConnector() returns (err: Option<Problem>)
      modifies `selected
      ensures err == None || err == Some(NoConnector)
      ensures err == None ==> Chosen(old(selected), connectors, input.payoutMethod, selected)
      ensures old(selected.id) != "" ==> err == None && selected == old(selected)
      ensures old(selected.id) == "" && err == None ==> FirstActive(connectors, input.payoutMethod) == Some(selected)
      ensures err != None ==> old(selected.id) == "" && FirstActive(connectors, input.payoutMethod) == None
      ensures err != None ==> selected == old(selected)
    {
      if selected.id != "" {
        return None;
      }
      var i := 0;
      while i < |connectors|
        invariant 0 <= i <= |connectors|
        invariant FirstActive(connectors, input.payoutMethod) == FirstActive(connectors[i..], input.payoutMethod)
      {
        var c := connectors[i];
        if c.isActive && c.payoutMethod == input.payoutMethod {
          selected := c;
          return None;
        }
        assert connectors[i..][1..] == connectors[i + 1..];
        i := i + 1;
      }
      return Some(NoConnector);
    }

    method BuildDestination() returns (raw: Option<string>)
      ensures raw == if beneficiary.None? then None
                     else FirstDestination(beneficiary.value, input.payoutMethod, input.country)
      ensures raw.Some? ==> raw.value == DestinationOf(input, beneficiary)
    {
      if beneficiary.None? {
        return None;
      }
      var ds := beneficiary.value;
      var i := 0;
      while i < |ds|
        invariant 0 <= i <= |ds|
        invariant FirstDestination(ds, input.payoutMethod, input.country) ==
                  FirstDestination(ds[i..], input.payoutMethod, input.country)
      {
        if ds[i].payoutMethod == input.payoutMethod && ds[i].country == input.country {
          return Some(ds[i].raw);
        }
        assert ds[i..][1..] == ds[i + 1..];
        i := i + 1;
      }
      return None;
    }

    predicate HasDestination()
      reads `beneficiary
    {
      beneficiary.Some? && FirstDestination(beneficiary.value, input.payoutMethod, input.country).Some?
    }

    method StepGetConnectQuote() returns (err: Option<Problem>)
      modifies `sent, `connectQuote
      ensures err == Some(NoDestination) <==> !HasDestination()
      ensures err == Some(WrongTrack) <==>
              HasDestination() && connectSession != null && old(connectSession.track) != Connect
      ensures sent == if err in {Some(NoDestination), Some(WrongTrack)} then old(sent)
                      else old(sent) + [Quoting(input, old(Known()))]
      ensures err == None ==> connectQuote.Some? && connectQuote.value.raw == ""
      ensures err == None ==> HasDestination()
      ensures err == None ==> var q := connectQuote.value;
                oracle.quote(sent) == Some(QuoteReply(q.quoteId, q.acceptedAsset, q.sendAmount))
      ensures err != None ==> connectQuote == old(connectQuote)
      ensures err.Some? && err.value.Remote? ==> Refused(oracle, sent, err.value.step)
      ensures err.Some? ==> err.value in {NoDestination, WrongTrack, Remote(6)}
    {
      var dest := BuildDestination();
      if dest.None? {
        return Some(NoDestination);
      }
      if !Guard(connectSession, Connect) {
        return Some(WrongTrack);
      }
      sent := sent + [GetQuote(selected.id, input.sendAmount, selected.acceptedAsset, dest.value)];
      var r := oracle.quote(sent);
      if r.None? {
        return Some(Remote(6));
      }
      connectQuote := Some(Quote(r.value.quoteId, r.value.acceptedAsset, r.value.sendAmount, ""));
      err := None;
    }

    predicate RequiresStellarQuote(): (r: bool)
      reads `connectQuote
      ensures r <==> connectQuote.Some? && ParseAsset(connectQuote.value.acceptedAsset).Some?
                     && input.fundingAsset != ParseAsset(connectQuote.value.acceptedAsset).value
    {
      RequiresIff(input.fundingAsset, connectQuote);
      Requires(input.fundingAsset, connectQuote)
    }

    method StepGetStellarQuote() returns (err: Option<Problem>)
      requires connectQuote.Some?
      modifies `sent, `stellarQuote
      ensures err == Some(BadAsset) <==> Unparsable(input, connectQuote.value)
      ensures err == Some(WrongTrack) <==>
              !Unparsable(input, connectQuote.value)
              && businessSession != null && old(businessSession.track) != Business
      ensures sent == if err in {Some(BadAsset), Some(WrongTrack)} then old(sent)
                      else old(sent) + [Conversion(input, connectQuote.value)]
      ensures err == None ==> stellarQuote.Some? && stellarQuote == oracle.stellarQuote(sent)
      ensures err != None ==> stellarQuote == old(stellarQuote)
      ensures err.Some? && err.value.Remote? ==> Refused(oracle, sent, err.value.step)
      ensures err.Some? ==> err.value in {BadAsset, WrongTrack, Remote(7)}
      ensures err.Some? && err != Some(WrongTrack) ==> Explained(err.value)
    {
      if Unparsable(input, connectQuote.value) {
        return Some(BadAsset);
      }
      err := CallStellarQuote(Conversion(input, connectQuote.value));
    }

    /** The call, once both assets are known to parse. */
    method CallStellarQuote(request: Request) returns (err: Option<Problem>)
      modifies `sent, `stellarQuote
      ensures err == None || err == Some(Remote(7)) || err == Some(WrongTrack)
      ensures err == Some(WrongTrack) <==> !old(Guard(businessSession, Business))
      ensures sent == if err == Some(WrongTrack) then old(sent) else old(sent) + [request]
      ensures err == None ==> stellarQuote.Some? && stellarQuote == oracle.stellarQuote(sent)
      ensures err != None ==> stellarQuote == old(stellarQuote)
      ensures err == Some(Remote(7)) && request.GetStellarQuote? ==> Refused(oracle, sent, 7)
    {
      if !Guard(businessSession, Business) {
        return Some(WrongTrack);
      }
      sent := sent + [request];
      var r := oracle.stellarQuote(sent);
      if r.None? {
        return Some(Remote(7));
      }
      stellarQuote := r;
      err := None;
    }

    /** Dereferences the Connect quote, and the Stellar quote when one is required. */
    method StepExecuteStellarTransaction() returns (err: Option<Problem>)
      requires connectQuote.Some? && (RequiresStellarQuote() ==> stellarQuote.Some?)
      modifies `sent, `walletTxHash
      ensures err.Some? ==> err.value in {WrongTrack, Remote(8)}
      ensures err == Some(WrongTrack) <==> businessSession != null && old(businessSession.track) != Business
      ensures sent == if err == Some(WrongTrack) then old(sent) else old(sent) + [Paying(oracle, input, old(Known()))]
      ensures err == None ==> oracle.pay(sent) == Some(walletTxHash)
      ensures err.Some? && err != Some(WrongTrack) ==> Explained(err.value)
    {
      var q := connectQuote.value;
      var payment := Payment(ClearingAccount(oracle, q.raw), input.fundingAsset.String(), "", q.sendAmount, "",
                             input.memo, input.memoType);
      if RequiresStellarQuote() {
        payment := payment.(toAsset := q.acceptedAsset, sendMax := stellarQuote.value);
      }
      assert Pay(input.walletId, payment) == Paying(oracle, input, Known());
      err := CallPay(Pay(input.walletId, payment));
    }

    /** The call, once its body is made. */
    method CallPay(request: Request) returns (err: Option<Problem>)
      modifies `sent, `walletTxHash
      ensures err.Some? ==> err.value in {WrongTrack, Remote(8)}
      ensures err == Some(WrongTrack) <==> !old(Guard(businessSession, Business))
      ensures sent == if err == Some(WrongTrack) then old(sent) else old(sent) + [request]
      ensures err == None ==> oracle.pay(sent) == Some(walletTxHash)
      ensures err == Some(Remote(8)) && request.Pay? ==> Refused(oracle, sent, 8)
    {
      if !Guard(businessSession, Business) {
        return Some(WrongTrack);
      }
      sent := sent + [request];
      var r := oracle.pay(sent);
      if r.None? {
        return Some(Remote(8));
      }
      walletTxHash := r.value;
      err := None;
    }

    method StepExecuteConnectPayment() returns (err: Option<Problem>)
      requires connectQuote.Some?
      modifies `sent, `executeResult
      ensures err.Some? ==> err.value in {NoDestination, WrongTrack, Remote(9)}
      ensures err == Some(NoDestination) <==> !HasDestination()
      ensures err == Some(WrongTrack) <==>
              HasDestination() && connectSession != null && old(connectSession.track) != Connect
      ensures sent == if err in {Some(NoDestination), Some(WrongTrack)} then old(sent)
                      else old(sent) + [Executing(input, old(Known()))]
      ensures err == None ==> executeResult.Some? && executeResult == oracle.execute(sent)
      ensures err.Some? && err != Some(WrongTrack) ==> Explained(err.value)
    {
      var dest := BuildDestination();
      if dest.None? {
        return Some(NoDestination);
      }
      if !Guard(connectSession, Connect) {
        return Some(WrongTrack);
      }
      sent := sent + [Execute(connectQuote.value.quoteId, walletTxHash, dest.value, input.memo)];
      var r := oracle.execute(sent);
      if r.None? {
        return Some(Remote(9));
      }
      executeResult := r;
      err := None;
    }

    // ---- Do ----

    /** All of the plan was sent, and every answer came from upstream. */
    ghost predicate Completed(base: Sent, was: Connector)
      reads `sent, `beneficiary, `signed, `connectors, `selected, `connectQuote, `stellarQuote,
            `walletTxHash, `executeResult
    {
      && sent == base + Plan(oracle, input, Known())
      && Answered(oracle, input, base, Known()) && HasDestination()
      && executeResult.Some? && executeResult == oracle.execute(sent)
      && Chosen(was, connectors, input.payoutMethod, selected)
    }

    /** The run completed, or stopped somewhere along its plan for a reason. */
    ghost predicate RanTo(err: Option<Problem>, base: Sent, was: Connector)
      reads `sent, `beneficiary, `signed, `connectors, `selected, `connectQuote, `stellarQuote,
            `walletTxHash, `executeResult
    {
      && Upto(base, Plan(oracle, input, Known()), sent)
      && match err
         case None => Completed(base, was)
         case Some(p) => Explained(p)
    }

    /** Why a run stopped: the last request was refused, or a local check failed. */
    ghost predicate Explained(p: Problem)
      reads `sent, `beneficiary, `connectors, `connectQuote
    {
      match p
      case BadKeypair => !IsSeed(input.seed) || !IsPublicKey(input.publicKey)
      case NoSigner => !oracle.hasSigner
      case CannotSign => Unsigned(oracle, sent)
      case BadReply => Unusable(oracle, sent)
      case BadFilter => !IsEnum(input.country) || !IsEnum(input.payoutMethod)
      case BadAsset => connectQuote.Some? && Unparsable(input, connectQuote.value)
      case NoConnector => FirstActive(connectors, input.payoutMethod) == None
      case NoDestination => !HasDestination()
      case Remote(step) => Refused(oracle, sent, step)
      case Invalid => false
      case WrongTrack => false
    }

    /** Steps 1 to 3. */
    method LookUp() returns (err: Option<Problem>)
      requires Authenticated()
      modifies `sent, `associations, `wallets, `beneficiary
      ensures Upto(old(sent), Start(input), sent)
      ensures err.Some? ==> Explained(err.value)
      ensures err == None ==> sent == old(sent) + Start(input)
      ensures err == None ==> beneficiary == oracle.beneficiary(sent)
    {
      ghost var base, plan := sent, Start(input);
      err := StepListAssociations();
      Extend(base, plan, base, sent);
      if err.Some? {
        return;
      }
      ghost var s1 := sent;
      err := StepListWallets();
      Extend(base, plan, s1, sent);
      if err.Some? {
        return;
      }
      ghost var s2 := sent;
      err := StepGetBeneficiary();
      Extend(base, plan, s2, sent);
    }

    /** Step 5 leaves the sessions and the store as they are. */
    method DiscoverApart() returns (err: Option<Problem>)
      requires store.Valid() && Guard(connectSession, Connect)
      modifies `sent, `connectors
      ensures store.Valid() && SessionKept()
      ensures err.Some? ==> Explained(err.value)
      ensures sent == old(sent) || sent == old(sent) + [QueryConnectors(input.country, input.payoutMethod)]
      ensures err == None ==> sent == old(sent) + [QueryConnectors(input.country, input.payoutMethod)]
      ensures err == None ==> Some(connectors) == oracle.connectors(sent)
    {
      RunnerIsOutside();
      err := StepDiscoverConnectors();
    }

    /** Step 5, after step 4 has been planned from base on. */
    method DiscoverFrom(ghost base: Sent) returns (err: Option<Problem>)
      requires store.Valid() && Guard(connectSession, Connect)
      requires sent == base + SigningIn(input, signed)
      modifies `sent, `connectors
      ensures store.Valid() && SessionKept()
      ensures err.Some? ==> Explained(err.value)
      ensures Upto(base, Entry(input, signed), sent)
      ensures err == None ==> sent == base + Entry(input, signed) && oracle.connectors(sent) == Some(connectors)
    {
      ghost var plan, s4 := Entry(input, signed), sent;
      UptoMore(base, SigningIn(input, signed), [QueryConnectors(input.country, input.payoutMethod)], sent);
      err := DiscoverApart();
      if sent != s4 {
        Extend(base, plan, s4, sent);
      }
    }

    /** Step 4, as far as the plan goes. */
    method SignInApart() returns (err: Option<Problem>)
      requires store.Valid() && SessionIsApart()
      modifies `sent, `signed, `connectSession, store, store.Held(Connect)
      ensures store.Valid() && SessionKept() && unchanged(`beneficiary, `selected)
      ensures Upto(old(sent), SigningIn(input, signed), sent)
      ensures err.Some? ==> Explained(err.value)
      ensures err == None ==> sent == old(sent) + SigningIn(input, signed) && IsStored()
      ensures err == None ==> SignedFor(oracle, input, old(sent), signed) && Guard(connectSession, Connect)
    {
      err := StepSignInConnect();
    }

    /** Steps 4 and 5. */
    method SignInAndDiscover() returns (err: Option<Problem>)
      requires store.Valid() && SessionIsApart()
      modifies `sent, `signed, `connectSession, `connectors, store, store.Held(Connect)
      ensures store.Valid() && SessionKept() && unchanged(`beneficiary, `selected)
      ensures Upto(old(sent), Entry(input, signed), sent)
      ensures err.Some? ==> Explained(err.value)
      ensures err == None ==> sent == old(sent) + Entry(input, signed) && oracle.connectors(sent) == Some(connectors)
      ensures err == None ==> SignedFor(oracle, input, old(sent), signed)
      ensures err == None ==> Guard(connectSession, Connect) && IsStored()
    {
      ghost var base := sent;
      err := SignInApart();
      if err.Some? {
        UptoMore(base, SigningIn(input, signed), [QueryConnectors(input.country, input.payoutMethod)], sent);
        return;
      }
      err := DiscoverFrom(base);
    }

    /** Step 7, when it is required. */
    method Convert() returns (err: Option<Problem>)
      requires Guard(businessSession, Business) && connectQuote.Some?
      modifies `sent, `stellarQuote
      ensures sent == old(sent) || sent == old(sent) + old(Converting(input, Known()))
      ensures err == None ==> sent == old(sent) + old(Converting(input, Known()))
      ensures err.Some? ==> Explained(err.value)
      ensures err == None && RequiresStellarQuote() ==> stellarQuote.Some? && stellarQuote == oracle.stellarQuote(sent)
    {
      ghost var requests := Converting(input, Known());
      if RequiresStellarQuote() {
        assert requests == [Conversion(input, connectQuote.value)];
        err := StepGetStellarQuote();
      } else {
        assert requests == [];
        err := None;
      }
    }

    /** The choice of the connector, and step 6. */
    method SelectAndQuote() returns (err: Option<Problem>)
      requires Guard(connectSession, Connect)
      modifies `sent, `selected, `connectQuote
      ensures sent == old(sent) || sent == old(sent) + [Quoting(input, Known())]
      ensures err.Some? ==> Explained(err.value)
      ensures err == None ==> sent == old(sent) + [Quoting(input, Known())]
      ensures err == None ==> connectQuote.Some? && connectQuote.value.raw == "" && HasDestination()
      ensures err == None ==> var q := connectQuote.value;
                oracle.quote(sent) == Some(QuoteReply(q.quoteId, q.acceptedAsset, q.sendAmount))
      ensures err == None ==> Chosen(old(selected), connectors, input.payoutMethod, selected)
    {
      err := SelectConnector();
      if err.Some? {
        return;
      }
      err := StepGetConnectQuote();
    }

    /** Steps 6 and 7. */
    method QuoteBoth() returns (err: Option<Problem>)
      requires Guard(connectSession, Connect) && Guard(businessSession, Business)
      modifies `sent, `selected, `connectQuote, `stellarQuote
      ensures Upto(old(sent), Quotes(input, Known()), sent)
      ensures err.Some? ==> Explained(err.value)
      ensures err == None ==> sent == old(sent) + Quotes(input, Known())
      ensures err == None ==> connectQuote.Some? && HasDestination() && Quoted(oracle, input, old(sent), Known())
      ensures err == None ==> Chosen(old(selected), connectors, input.payoutMethod, selected)
    {
      ghost var base := sent;
      err := SelectAndQuote();
      ghost var request, quoted := Quoting(input, Known()), Known();
      if err.Some? {
        UptoFirst(base, request, Converting(input, quoted), sent);
        return;
      }
      err := Convert();
      SameConverting(input, quoted, Known());
      UptoLast(base, request, Converting(input, quoted), sent);
      assert Quotes(input, Known()) == [request] + Converting(input, quoted);
    }

    /** Step 9, after the payment. */
    method ExecuteAfter(ghost base: Sent, ghost payment: Request) returns (err: Option<Problem>)
      requires Guard(connectSession, Connect) && connectQuote.Some? && sent == base + [payment]
      modifies `sent, `executeResult
      ensures Upto(base, [payment, Executing(input, Known())], sent)
      ensures err.Some? ==> Explained(err.value)
      ensures err == None ==> sent == base + [payment, Executing(input, Known())]
      ensures err == None ==> executeResult.Some? && executeResult == oracle.execute(sent)
    {
      ghost var execution := Executing(input, Known());
      err := StepExecuteConnectPayment();
      UptoLast(base, payment, [execution], sent);
      assert [payment] + [execution] == [payment, execution];
    }

    /** Steps 8 and 9, the second of which needs the destination that the quote needed. */
    method Settle() returns (err: Option<Problem>)
      requires Guard(connectSession, Connect) && Guard(businessSession, Business)
      requires connectQuote.Some? && (RequiresStellarQuote() ==> stellarQuote.Some?)
      modifies `sent, `walletTxHash, `executeResult
      ensures Upto(old(sent), Settlement(oracle, input, Known()), sent)
      ensures err.Some? ==> Explained(err.value)
      ensures err == None ==> sent == old(sent) + Settlement(oracle, input, Known())
      ensures err == None ==> executeResult.Some? && executeResult == oracle.execute(sent)
      ensures err == None ==> oracle.pay(old(sent) + [Paying(oracle, input, Known())]) == Some(walletTxHash)
    {
      ghost var base, was := sent, Known();
      err := StepExecuteStellarTransaction();
      SamePaying(oracle, input, was, Known());
      ghost var payment := Paying(oracle, input, was);
      ghost var execution := Executing(input, Known());
      if err.Some? {
        UptoFirst(base, payment, [execution], sent);
        assert [payment] + [execution] == [payment, execution];
        return;
      }
      err := ExecuteAfter(base, payment);
    }

    lemma RunnerIsOutside()
      ensures (this as object) !in store.Heap() && (this as object) !in store.Held(Connect)
      ensures businessSession != null ==> (this as object) !in businessSession.Buffers()
    {
    }

    /** Steps 1 to 3 leave the sessions and the store as they are. */
    method LookUpApart() returns (err: Option<Problem>)
      requires store.Valid() && SessionIsApart() && Authenticated()
      modifies `sent, `associations, `wallets, `beneficiary
      ensures store.Valid() && SessionIsApart() && SessionKept() && Authenticated()
      ensures Upto(old(sent), Start(input), sent)
      ensures err.Some? ==> Explained(err.value)
      ensures err == None ==> sent == old(sent) + Start(input)
      ensures err == None ==> beneficiary == oracle.beneficiary(sent)
    {
      RunnerIsOutside();
      err := LookUp();
    }

    /** Steps 1 to 5. */
    method Open() returns (err: Option<Problem>)
      requires store.Valid() && SessionIsApart() && Authenticated()
      modifies `sent, `signed, `associations, `wallets, `beneficiary, `connectSession, `connectors
      modifies store, store.Held(Connect)
      ensures store.Valid() && SessionKept() && unchanged(`selected)
      ensures err.Some? ==> Explained(err.value)
      ensures Upto(old(sent), Opening(input, signed), sent)
      ensures err == None ==> sent == old(sent) + Opening(input, signed) && IsStored()
      ensures err == None ==> Guard(connectSession, Connect) && Found(oracle, input, old(sent), Known())
    {
      ghost var base := sent;
      err := LookUpApart();
      if err.Some? {
        UptoMore(base, Start(input), Entry(input, signed), sent);
        return;
      }
      err := SignInAndDiscover();
      UptoAfter(base, Start(input), Entry(input, signed), sent);
      Collections.Assoc(base, Start(input), Entry(input, signed));
    }

    /** Every step in order. */
    method RunSteps() returns (err: Option<Problem>)
      requires store.Valid() && SessionIsApart() && Authenticated()
      modifies this, store, store.Held(Connect)
      ensures store.Valid() && SessionKept()
      ensures RanTo(err, old(sent), old(selected)) && (err == None ==> IsStored())
    {
      ghost var base := sent;
      err := Open();
      if err.Some? {
        UptoOpening(oracle, input, Known(), base, sent);
        return;
      }
      err := Conclude(base);
    }

    /** Steps 6 to 9. */
    method QuoteAndSettle(ghost base: Sent) returns (err: Option<Problem>)
      requires Guard(connectSession, Connect) && Guard(businessSession, Business)
      requires sent == base + Opening(input, signed) && Found(oracle, input, base, Known())
      modifies `sent, `selected, `connectQuote, `stellarQuote, `walletTxHash, `executeResult
      ensures RanTo(err, base, old(selected))
    {
      err := QuoteBoth();
      if err.Some? {
        UptoQuotes(oracle, input, Known(), base, sent);
        return;
      }
      ghost var quoted := Known();
      err := Settle();
      KeepsQuotes(oracle, input, base + Opening(input, signed), quoted, Known());
      UptoSettlement(oracle, input, Known(), base, sent);
      WholePlan(base, Opening(input, signed), Quotes(input, Known()), Settlement(oracle, input, Known()));
    }

    /** Steps 6 to 9 leave the sessions and the store as they are. */
    method Conclude(ghost base: Sent) returns (err: Option<Problem>)
      requires Guard(connectSession, Connect) && Guard(businessSession, Business)
      requires store.Valid()
      requires sent == base + Opening(input, signed) && Found(oracle, input, base, Known())
      modifies `sent, `selected, `connectQuote, `stellarQuote, `walletTxHash, `executeResult
      ensures store.Valid() && SessionKept()
      ensures RanTo(err, base, old(selected))
    {
      RunnerIsOutside();
      err := QuoteAndSettle(base);
    }

    /** A run sends a prefix of its plan, and all of it when it completes; the Business
        session survives it, and it stops only for a reason, which is never a session of
        the wrong track. */
    method Do() returns (r: Option<PaymentResult>, err: Option<Problem>)
      requires store.Valid() && SessionIsApart()
      modifies this, store, store.Held(Connect)
      ensures store.Valid() && SessionKept()
      ensures err != Some(Invalid) <==>
              && hasClient && businessSession != null && old(businessSession.track) == Business
              && input.seed != "" && input.publicKey != ""
              && input.associationId != "" && input.walletId != "" && input.beneficiaryId != ""
              && input.payoutMethod != "" && input.country != "" && input.sendAmount != ""
      ensures err == Some(Invalid) ==> sent == old(sent)
      ensures err.Some? && err != Some(Invalid) ==> Explained(err.value)
      ensures Upto(old(sent), Plan(oracle, input, Known()), sent)
      ensures r.Some? <==> err == None
      ensures err == None ==> Completed(old(sent), old(selected)) && IsStored()
      ensures err == None ==> connectQuote.Some? && |sent| - |old(sent)| in {9, 10}
      ensures err == None ==> var accepted := ParseAsset(connectQuote.value.acceptedAsset);
        |sent| - |old(sent)| == 10 <==> accepted.Some? && input.fundingAsset != accepted.value
      ensures err == None ==>
                if old(selected.id) != "" then selected == old(selected)
                else FirstActive(connectors, input.payoutMethod) == Some(selected)
      ensures err == None ==> var e := executeResult.value;
        r == Some(PaymentResult(e.transactionId, e.status, walletTxHash, connectQuote.value.quoteId, selected))
    {
      if !InputIsValid() {
        return None, Some(Invalid);
      }
      err := RunSteps();
      if err.Some? {
        return None, err;
      }
      var e := executeResult.value;
      r := Some(PaymentResult(e.transactionId, e.status, walletTxHash, connectQuote.value.quoteId, selected));
    }
  }
}
