/** Utilities of the Cosmos adapter: telling single sends from multi sends by
    the fields a decoded message carries, the denom table of ATOM and MUON,
    and the query string of a history request. */
module CosmosUtil {
  import opened Wrappers
  import opened Assets
  import opened Strings
  import DenomTable

  // ---- transfer messages ----

  /** An amount of one denom, in base units. */
  datatype Coin = Coin(denom: string, amount: nat)

  /** One side of a multi send: an address and the coins it sends or receives. */
  datatype Io = Io(address: string, coins: seq<Coin>)

  /** A message as decoded from a wire envelope, with its concrete type erased:
      only which fields are present is known. */
  datatype Msg = Msg(
    fromAddress: Option<string>,
    toAddress: Option<string>,
    amount: Option<seq<Coin>>,
    inputs: Option<seq<Io>>,
    outputs: Option<seq<Io>>)

  /** A single send, from one address to another. */
  datatype MsgSend = MsgSend(fromAddress: string, toAddress: string, amount: seq<Coin>)

  /** A multi send, from several inputs to several outputs. */
  datatype MsgMultiSend = MsgMultiSend(inputs: seq<Io>, outputs: seq<Io>)

  /** The decoded form of a single send: its own three fields and nothing else. */
  function SendToMsg(m: MsgSend): Msg
  {
    Msg(Some(m.fromAddress), Some(m.toAddress), Some(m.amount), None, None)
  }

  /** The decoded form of a multi send: its inputs and outputs and nothing else. */
  function MultiSendToMsg(m: MsgMultiSend): Msg
  {
    Msg(None, None, None, Some(m.inputs), Some(m.outputs))
  }

  predicate IsMsgSend(msg: Msg)
  {
    msg.amount.Some? && msg.fromAddress.Some? && msg.toAddress.Some?
  }

  predicate IsMsgMultiSend(msg: Msg)
  {
    msg.inputs.Some? && msg.outputs.Some?
  }

  /** The single send a message is narrowed to once `IsMsgSend` holds. */
  function AsMsgSend(msg: Msg): Option<MsgSend>
  {
    if IsMsgSend(msg) then Some(MsgSend(msg.fromAddress.value, msg.toAddress.value, msg.amount.value))
    else None
  }

  /** The multi send a message is narrowed to once `IsMsgMultiSend` holds. */
  function AsMsgMultiSend(msg: Msg): Option<MsgMultiSend>
  {
    if IsMsgMultiSend(msg) then Some(MsgMultiSend(msg.inputs.value, msg.outputs.value))
    else None
  }

  /** A decoded single send is recognised as one and not as a multi send. */
  lemma SendIsNotMultiSend(m: MsgSend)
    ensures IsMsgSend(SendToMsg(m))
    ensures !IsMsgMultiSend(SendToMsg(m))
  {
  }

  /** A decoded multi send is recognised as one and not as a single send. */
  lemma MultiSendIsNotSend(m: MsgMultiSend)
    ensures IsMsgMultiSend(MultiSendToMsg(m))
    ensures !IsMsgSend(MultiSendToMsg(m))
  {
  }

  /** Narrowing a decoded single send gives back the message, and a narrowed
      message carries exactly the narrowed fields. */
  lemma AsMsgSendRoundTrip(m: MsgSend, msg: Msg)
    ensures AsMsgSend(SendToMsg(m)) == Some(m)
    ensures AsMsgSend(msg) == Some(m) ==>
      msg.fromAddress == Some(m.fromAddress) && msg.toAddress == Some(m.toAddress) && msg.amount == Some(m.amount)
  {
  }

  /** The same for multi sends. */
  lemma AsMsgMultiSendRoundTrip(m: MsgMultiSend, msg: Msg)
    ensures AsMsgMultiSend(MultiSendToMsg(m)) == Some(m)
    ensures AsMsgMultiSend(msg) == Some(m) ==> msg.inputs == Some(m.inputs) && msg.outputs == Some(m.outputs)
  {
  }

  /** A message may be neither kind: the guards are not complements of each other. */
  lemma NeitherKind()
    ensures !IsMsgSend(Msg(None, None, None, None, None))
    ensures !IsMsgMultiSend(Msg(None, None, None, None, None))
  {
  }

  const FixtureAddress: string := "cosmos1gehrq0pr5d79q8nxnaenvqh09g56jafm82thjv"

  /** The multi send of the type-guard tests: two inputs and one output of uatom. */
  const FixtureMultiSend: MsgMultiSend := MsgMultiSend(
    [Io(FixtureAddress, [Coin("uatom", 100000)]), Io(FixtureAddress, [Coin("uatom", 300000)])],
    [Io(FixtureAddress, [Coin("uatom", 400000)])])

  /** The single send of the type-guard tests. */
  const FixtureSend: MsgSend := MsgSend(FixtureAddress, FixtureAddress, [Coin("uatom", 100000)])

  lemma TypeGuardExamples()
    ensures IsMsgMultiSend(MultiSendToMsg(FixtureMultiSend))
    ensures !IsMsgMultiSend(SendToMsg(FixtureSend))
    ensures IsMsgSend(SendToMsg(FixtureSend))
    ensures !IsMsgSend(MultiSendToMsg(FixtureMultiSend))
  {
    SendIsNotMultiSend(FixtureSend);
    MultiSendIsNotSend(FixtureMultiSend);
  }

  // ---- denom <-> asset ----

  const AssetAtom: Asset := Asset(CosmosChain, "ATOM", "ATOM")
  const AssetMuon: Asset := Asset(CosmosChain, "MUON", "MUON")

  /** The denom table of the Cosmos adapter. */
  const Denoms: DenomTable.Table := [(AssetAtom, "uatom"), (AssetMuon, "umuon")]

  function GetDenom(a: Asset): Option<string>
  {
    DenomTable.DenomOf(Denoms, a)
  }

  function GetAsset(d: string): Option<Asset>
  {
    DenomTable.AssetOf(Denoms, d)
  }

  lemma DenomsInjective()
    ensures DenomTable.Injective(Denoms)
  {
  }

  lemma DenomExamples()
    ensures GetDenom(AssetAtom) == Some("uatom")
    ensures GetDenom(AssetMuon) == Some("umuon")
    ensures GetAsset("umuon") == Some(AssetMuon)
    ensures GetAsset("uatom") == Some(AssetAtom)
    ensures GetAsset("unknown") == None
  {
    DenomsInjective();
    DenomTable.LookupEntry(Denoms, 0);
    DenomTable.LookupEntry(Denoms, 1);
  }

  /** Exactly the two table denoms resolve; every other denom gives "no match". */
  lemma GetAssetResolves(d: string)
    ensures GetAsset(d).Some? <==> (d == "uatom" || d == "umuon")
  {
    DenomsInjective();
    DenomTable.LookupEntry(Denoms, 0);
    DenomTable.LookupEntry(Denoms, 1);
  }

  /** `GetAsset` undoes `GetDenom` for every asset that has a denom. */
  lemma DenomThenAsset(a: Asset)
    ensures GetDenom(a).Some? ==> GetAsset(GetDenom(a).value) == Some(a)
  {
    DenomsInjective();
    DenomTable.DenomThenAsset(Denoms, a);
  }

  /** `GetDenom` undoes `GetAsset` for every denom that resolves. */
  lemma AssetThenDenom(d: string)
    ensures GetAsset(d).Some? ==> GetDenom(GetAsset(d).value) == Some(d)
  {
    DenomsInjective();
    DenomTable.AssetThenDenom(Denoms, d);
  }

  // ---- query string ----

  /** Query parameters as key/value pairs in insertion order. */
  type QueryParams = seq<(string, string)>

  const ParamSeparator: char := '&'
  const KeyValueSeparator: char := '='

  function ParamString(p: (string, string)): string
  {
    p.0 + [KeyValueSeparator] + p.1
  }

  function ParamStrings(ps: QueryParams): seq<string>
  {
    seq(|ps|, i requires 0 <= i < |ps| => ParamString(ps[i]))
  }

  /** Each parameter as `key=value`, in order, joined with `&`; nothing is encoded. */
  function GetQueryString(ps: QueryParams): string
  {
    Join(ParamStrings(ps), ParamSeparator)
  }

  /** One `key=value` segment cut at its first `=`; without `=` the value is empty. */
  function ParseParam(seg: string): (string, string)
  {
    match IndexOf(seg, KeyValueSeparator)
    case None => (seg, "")
    case Some(i) => (seg[..i], seg[i + 1..])
  }

  /** The inverse of `GetQueryString`: cut at every `&`, then each segment at its first `=`. */
  function ParseQueryString(s: string): QueryParams
  {
    if s == "" then []
    else
      var segs := SplitOn(s, ParamSeparator);
      seq(|segs|, i requires 0 <= i < |segs| => ParseParam(segs[i]))
  }

  /** Keys hold neither separator and values hold no `&`, so the query string is unambiguous. */
  predicate PlainParams(ps: QueryParams)
  {
    forall i :: 0 <= i < |ps| ==>
      ParamSeparator !in ps[i].0 && KeyValueSeparator !in ps[i].0 && ParamSeparator !in ps[i].1
  }

  lemma ParseParamRoundTrip(k: string, v: string)
    requires KeyValueSeparator !in k
    ensures ParseParam(ParamString((k, v))) == (k, v)
  {
    var s := ParamString((k, v));
    IndexOfAfterPrefix(k, KeyValueSeparator, v);
    assert s[..|k|] == k;
    assert s[|k| + 1..] == v;
  }

  /** The query string is empty exactly when there are no parameters. */
  lemma QueryStringEmpty(ps: QueryParams)
    ensures GetQueryString(ps) == "" <==> ps == []
  {
    var segs := ParamStrings(ps);
    if |segs| > 1 {
      assert |GetQueryString(ps)| >= |segs[0]|;
    }
  }

  /** Every key and value is copied unchanged, in order: parsing the query string
      gives the parameters back. */
  lemma QueryStringRoundTrip(ps: QueryParams)
    requires PlainParams(ps)
    ensures ParseQueryString(GetQueryString(ps)) == ps
  {
    if ps != [] {
      var segs := ParamStrings(ps);
      assert forall i :: 0 <= i < |segs| ==> ParamSeparator !in segs[i];
      SplitOnJoin(segs, ParamSeparator);
      QueryStringEmpty(ps);
      forall i | 0 <= i < |ps|
        ensures ParseParam(segs[i]) == ps[i]
      {
        ParseParamRoundTrip(ps[i].0, ps[i].1);
      }
    }
  }

  /** The parameters appear in insertion order: the query string of two parameter
      lists one after the other is the two query strings joined by `&`. */
  lemma QueryStringConcat(p: QueryParams, q: QueryParams)
    requires p != [] && q != []
    ensures GetQueryString(p + q) == GetQueryString(p) + [ParamSeparator] + GetQueryString(q)
  {
    assert ParamStrings(p + q) == ParamStrings(p) + ParamStrings(q);
    JoinConcat(ParamStrings(p), ParamStrings(q), ParamSeparator);
  }

  /** The sender address of the query-string test. */
  const FixtureSender: string := "cosmos16mzuy68a9xzqpsp88dt4f2tl0d49drhepn68fg"

  /** The parameters of the query-string test; the `.` in the first key stays as written. */
  const FixtureParams: QueryParams := [("message.Sender", FixtureSender), ("page", "1"), ("limit", "5")]

  lemma QueryStringExample()
    ensures GetQueryString(FixtureParams) == "message.Sender=" + FixtureSender + "&page=1&limit=5"
  {
    var segs := ParamStrings(FixtureParams);
    assert segs[0] == "message.Sender" + [KeyValueSeparator] + FixtureSender;
    assert segs[1] == "page=1" && segs[2] == "limit=5";
    assert segs[1..][1..] == ["limit=5"];
    var tail := "page=1" + [ParamSeparator] + "limit=5";
    assert Join(segs[1..], ParamSeparator) == tail;
    assert "message.Sender" + [KeyValueSeparator] == "message.Sender=";
    assert [ParamSeparator] + tail == "&page=1&limit=5";
  }
}
