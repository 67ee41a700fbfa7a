/**
 * `getParsedTokenAccountsByOwner` and the `useTokensByWalletAll` hook: one
 * record per token account of the wallet, with the account's on-chain metadata
 * cleaned of NUL padding and surrounding whitespace and, when its uri answers,
 * the metadata document. The ledger query, the metadata lookup and the HTTP
 * fetch are inputs.
 */
module TokenAccounts {
  import opened Common
  import opened Text

  /** The name, symbol and uri stored in a token's metadata account. */
  datatype MetadataData = MetadataData(name: string, symbol: string, uri: string)

  /** `Metadata.fromAccountAddress` for a mint: it throws, or finds the data. */
  datatype MetadataReply = LookupFailed | Found(data: MetadataData)

  /**
   * `fetch(uri)` then `r.json()`: the fetch throws, the response is not ok, the
   * body does not parse, the body parses to a falsy value, or it parses to `json`.
   */
  datatype JsonReply = FetchThrew | NotOk | BodyThrew | FalsyBody | OkBody(json: string)

  /** One entry of the ledger's parsed token-account list. */
  datatype ParsedAccount = ParsedAccount(
    pubkey: string, mint: string, owner: string,
    uiAmount: Option<real>, amount: string, decimals: nat)

  /** The ledger query for the wallet's token accounts. */
  datatype AccountsReply = RpcThrew | Accounts(accounts: seq<ParsedAccount>)

  /** The record the token picker shows. */
  datatype TokenInfo = TokenInfo(
    address: string, mintAddress: string, owner: string,
    balance: Option<real>, balanceRaw: string, decimals: nat,
    metadata: Option<MetadataData>, metadataJson: Option<string>)

  predicate IsClean(s: string) {
    '\0' !in s && IsTrimmed(s)
  }

  /** The three fields, each cut at its first NUL and trimmed. */
  function CleanMetadata(m: MetadataData): (c: MetadataData)
    ensures IsClean(c.name) && IsClean(c.symbol) && IsClean(c.uri)
    ensures IsClean(m.name) && IsClean(m.symbol) && IsClean(m.uri) ==> c == m
  {
    CleanKeepsClean(m.name);
    CleanKeepsClean(m.symbol);
    CleanKeepsClean(m.uri);
    MetadataData(Clean(m.name), Clean(m.symbol), Clean(m.uri))
  }

  /** A string with no NUL and no surrounding whitespace is left alone by cleaning. */
  lemma {:induction false} CleanKeepsClean(s: string)
    ensures IsClean(s) ==> Clean(s) == s
  {
    if IsClean(s) {
      SplitWithout(s, '\0');
    }
  }

  /** Cleaning the metadata twice is cleaning it once. */
  lemma {:induction false} CleanMetadataIdempotent(m: MetadataData)
    ensures CleanMetadata(CleanMetadata(m)) == CleanMetadata(m)
  {
  }

  /** Whether cleaning ran to the end: the fetch answered, and a body that was read parsed. */
  predicate FetchSettled(reply: JsonReply) {
    reply.NotOk? || reply.FalsyBody? || reply.OkBody?
  }

  /**
   * The record for one account. `lookup` answers the metadata lookup by mint,
   * `fetch` answers the HTTP request by uri.
   */
  function ToTokenInfo(a: ParsedAccount, lookup: string -> MetadataReply, fetch: string -> JsonReply): (t: TokenInfo)
    ensures t.address == a.pubkey && t.mintAddress == a.mint && t.owner == a.owner
    ensures t.balance == a.uiAmount && t.balanceRaw == a.amount && t.decimals == a.decimals
    ensures t.metadata.None? <==> lookup(a.mint).LookupFailed?
    ensures lookup(a.mint).Found? ==>
      var m := lookup(a.mint).data;
      var reply := fetch(Clean(m.uri));
      && t.metadata == Some(if FetchSettled(reply) then CleanMetadata(m) else m)
      && t.metadataJson == (if reply.OkBody? then Some(reply.json) else None)
    ensures t.metadataJson.Some? ==> t.metadata.Some? && IsClean(t.metadata.value.uri)
  {
    var info := lookup(a.mint);
    var (metadata, metadataJson) :=
      if info.LookupFailed? then (None, None)
      else
        var m := info.data;
        var reply := fetch(Clean(m.uri));
        if FetchSettled(reply) then
          (Some(CleanMetadata(m)), if reply.OkBody? then Some(reply.json) else None)
        else (Some(m), None);
    TokenInfo(a.pubkey, a.mint, a.owner, a.uiAmount, a.amount, a.decimals, metadata, metadataJson)
  }

  /**
   * `getParsedTokenAccountsByOwner`: the query's failure is passed on; otherwise
   * one record per account, in the order of the response.
   */
  function GetParsedTokenAccounts(reply: AccountsReply, lookup: string -> MetadataReply, fetch: string -> JsonReply)
    : (r: Result<seq<TokenInfo>>)
    ensures r.Err? <==> reply.RpcThrew?
    ensures r.Ok? ==> |r.value| == |reply.accounts|
    ensures r.Ok? ==> forall i :: 0 <= i < |reply.accounts| ==> r.value[i] == ToTokenInfo(reply.accounts[i], lookup, fetch)
  {
    match reply
    case RpcThrew => Err("Failed to fetch token accounts")
    case Accounts(accs) => Ok(seq(|accs|, i requires 0 <= i < |accs| => ToTokenInfo(accs[i], lookup, fetch)))
  }

  /** Every metadata the list exposes is either fully cleaned or exactly as stored. */
  lemma {:induction false} ExposedMetadata(reply: AccountsReply, lookup: string -> MetadataReply, fetch: string -> JsonReply, i: nat)
    requires GetParsedTokenAccounts(reply, lookup, fetch).Ok?
    requires i < |GetParsedTokenAccounts(reply, lookup, fetch).value|
    ensures var t := GetParsedTokenAccounts(reply, lookup, fetch).value[i];
      t.metadata.Some? ==>
        var m := lookup(t.mintAddress).data;
        t.metadata.value == CleanMetadata(m) || t.metadata.value == m
  {
  }

  /** The state the hook keeps for the token picker. */
  class TokenList {
    var tokens: seq<TokenInfo>
    var isLoading: bool

    constructor ()
      ensures tokens == [] && !isLoading
    {
      tokens := [];
      isLoading := false;
    }

    /**
     * The hook's effect for one wallet state, run to completion: no wallet, or
     * a wallet not connected, empties the list without touching `isLoading`;
     * otherwise the list becomes the fetched records, or empty when the fetch
     * fails, and loading is over.
     */
    method Refresh(publicKey: Option<string>, connected: bool,
                   reply: AccountsReply, lookup: string -> MetadataReply, fetch: string -> JsonReply)
      modifies this
      ensures publicKey.None? || !connected ==> tokens == [] && isLoading == old(isLoading)
      ensures publicKey.Some? && connected ==>
        && !isLoading
        && tokens == (match GetParsedTokenAccounts(reply, lookup, fetch)
                      case Ok(ts) => ts
                      case Err(_) => [])
    {
      if publicKey.None? || !connected {
        tokens := [];
        return;
      }
      isLoading := true;
      var r := GetParsedTokenAccounts(reply, lookup, fetch);
      match r {
        case Ok(ts) => tokens := ts;
        case Err(_) => tokens := [];
      }
      isLoading := false;
    }
  }
}
