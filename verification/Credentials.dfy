/** The encrypted credential table and token refresh (crates/credential-store/src/store.rs,
    refresh.rs). Encryption is symbolic: a sealed value opens under the key that sealed it and
    under no other. */
module Credentials {
  import opened Prelude

  type MasterKey = nat

  datatype Key = Key(master: MasterKey, salt: seq<nat>, provider: string)

  datatype Metadata = Metadata(clientEmail: string, tokenUri: string)

  datatype Plain = Token(text: string) | Json(metadata: Metadata)

  datatype Blob = Sealed(key: Key, nonce: nat, plain: Plain) | Corrupt

  datatype Error =
    | Decryption(reason: string)
    | NotFound
    | RefreshFailed(reason: string)
    | CredentialInvalid(reason: string)
    | ServiceAccountError(reason: string)

  function Encrypt(key: Key, nonce: nat, plain: Plain): Blob {
    Sealed(key, nonce, plain)
  }

  function Decrypt(key: Key, blob: Blob): Result<Plain, Error> {
    if blob.Sealed? && blob.key == key then Ok(blob.plain) else Err(Decryption("aead error"))
  }

  /** Primary key of the table. */
  datatype Id = Id(user: string, skill: string, provider: string)

  datatype Row = Row(
    accessToken: Blob,
    refreshToken: Option<Blob>,
    expiresAt: Option<int>,
    scopes: string,
    salt: seq<nat>,
    createdAt: int,
    updatedAt: int,
    kind: string,
    metadata: Option<Blob>)

  type Table = map<Id, Row>

  datatype Credential = Credential(
    accessToken: string,
    refreshToken: Option<string>,
    id: Id,
    scopes: string,
    expiresAt: Option<int>,
    serviceAccount: bool,
    metadata: Option<Metadata>)

  datatype TokenResponse = TokenResponse(accessToken: string, refreshToken: Option<string>, expiresIn: Option<int>)

  /** The provider's token endpoint, as it answers during one load. */
  datatype Refresher = Refresher(
    refresh: (string, string) -> Result<TokenResponse, Error>,
    mint: (string, Metadata, string) -> Result<TokenResponse, Error>)

  /** Random bytes and the clock reading drawn while storing. */
  datatype Draw = Draw(salt: seq<nat>, nonces: nat -> nat, storedAt: int)

  function OpenToken(key: Key, blob: Blob): Result<string, Error> {
    match Decrypt(key, blob)
    case Ok(Token(text)) => Ok(text)
    case Ok(Json(_)) => Err(Decryption("invalid utf-8"))
    case Err(e) => Err(e)
  }

  function OpenMetadata(key: Key, blob: Blob): Result<Metadata, Error> {
    match Decrypt(key, blob)
    case Ok(Json(metadata)) => Ok(metadata)
    case Ok(Token(_)) => Err(Decryption("invalid JSON"))
    case Err(e) => Err(e)
  }

  function ServiceAccount(row: Row): bool {
    row.kind == "service_account"
  }

  function DecryptRow(master: MasterKey, id: Id, row: Row): Result<Credential, Error> {
    if |row.salt| != 32 then Err(Decryption("invalid salt length"))
    else
      var key := Key(master, row.salt, id.provider);
      var access := OpenToken(key, row.accessToken);
      if access.Err? then Err(access.error)
      else
        var refresh := if row.refreshToken.None? then Ok("") else OpenToken(key, row.refreshToken.value);
        if refresh.Err? then Err(refresh.error)
        else
          var metadata := if row.metadata.None? then Ok(Metadata("", "")) else OpenMetadata(key, row.metadata.value);
          if metadata.Err? then Err(metadata.error)
          else
            Ok(Credential(access.value,
                          if row.refreshToken.None? then None else Some(refresh.value),
                          id, row.scopes, row.expiresAt, ServiceAccount(row),
                          if row.metadata.None? then None else Some(metadata.value)))
  }

  function SealOAuth(master: MasterKey, id: Id, access: string, refresh: Option<string>, expiresAt: Option<int>,
                     scopes: string, draw: Draw): Row {
    var key := Key(master, draw.salt, id.provider);
    Row(Encrypt(key, draw.nonces(0), Token(access)),
        if refresh.None? then None else Some(Encrypt(key, draw.nonces(1), Token(refresh.value))),
        expiresAt, scopes, draw.salt, draw.storedAt, draw.storedAt, "oauth", None)
  }

  function SealServiceAccount(master: MasterKey, id: Id, privateKey: string, metadata: Metadata, scopes: string,
                              draw: Draw): Row {
    var key := Key(master, draw.salt, id.provider);
    Row(Encrypt(key, draw.nonces(0), Token(privateKey)), None, None, scopes, draw.salt, draw.storedAt, draw.storedAt,
        "service_account", Some(Encrypt(key, draw.nonces(1), Json(metadata))))
  }

  /** Expired, or within a minute of it. */
  predicate IsExpired(expiresAt: Option<int>, now: int) {
    expiresAt.Some? && now >= expiresAt.value - 60
  }

  /** Storing and loading is the identity, whatever salt and nonces were drawn. */
  lemma StoreLoadRoundTrip(master: MasterKey, id: Id, access: string, refresh: Option<string>, expiresAt: Option<int>,
                           scopes: string, metadata: Metadata, draw: Draw)
    requires |draw.salt| == 32
    ensures DecryptRow(master, id, SealOAuth(master, id, access, refresh, expiresAt, scopes, draw)) ==
            Ok(Credential(access, refresh, id, scopes, expiresAt, false, None))
    ensures DecryptRow(master, id, SealServiceAccount(master, id, access, metadata, scopes, draw)) ==
            Ok(Credential(access, None, id, scopes, None, true, Some(metadata)))
  {
    assert "oauth"[0] == 'o' && "service_account"[0] == 's';
  }

  /** A stored row opens exactly under its own master key and provider. */
  lemma OpensIff(master: MasterKey, id: Id, access: string, refresh: Option<string>, expiresAt: Option<int>,
                 scopes: string, metadata: Metadata, draw: Draw, master': MasterKey, id': Id)
    requires |draw.salt| == 32
    ensures DecryptRow(master', id', SealOAuth(master, id, access, refresh, expiresAt, scopes, draw)).Ok? <==>
            master' == master && id'.provider == id.provider
    ensures DecryptRow(master', id', SealServiceAccount(master, id, access, metadata, scopes, draw)).Ok? <==>
            master' == master && id'.provider == id.provider
  {
    var row := SealOAuth(master, id, access, refresh, expiresAt, scopes, draw);
    var account := SealServiceAccount(master, id, access, metadata, scopes, draw);
    var key := Key(master', draw.salt, id'.provider);
    assert OpenToken(key, row.accessToken).Ok? <==> key == Key(master, draw.salt, id.provider);
    assert OpenToken(key, account.accessToken).Ok? <==> key == Key(master, draw.salt, id.provider);
  }

  // ---------------------------------------------------------------- load_and_refresh

  datatype Load = Load(id: Id, now: int, refresher: Refresher, draw: Draw)

  /** The answer of the token endpoint if this load asks for one: the row exists, is not a service
      account, is about to expire, opens, and has a refresh token. */
  function RefreshAnswer(master: MasterKey, rows: Table, l: Load): Option<Result<TokenResponse, Error>> {
    if l.id !in rows || ServiceAccount(rows[l.id]) || !IsExpired(rows[l.id].expiresAt, l.now) then None
    else
      var cred := DecryptRow(master, l.id, rows[l.id]);
      if cred.Err? || cred.value.refreshToken.None? then None
      else Some(l.refresher.refresh(l.id.provider, cred.value.refreshToken.value))
  }

  /** The endpoint is asked, with the stored refresh token, exactly for an OAuth row that opens, has such a
      token, and expires within a minute or has expired. */
  lemma EndpointAskedIff(master: MasterKey, rows: Table, l: Load)
    ensures RefreshAnswer(master, rows, l).Some? <==>
            && l.id in rows && rows[l.id].kind != "service_account"
            && DecryptRow(master, l.id, rows[l.id]).Ok?
            && DecryptRow(master, l.id, rows[l.id]).value.refreshToken.Some?
            && rows[l.id].expiresAt.Some? && l.now >= rows[l.id].expiresAt.value - 60
    ensures RefreshAnswer(master, rows, l).Some? ==>
              RefreshAnswer(master, rows, l).value ==
              l.refresher.refresh(l.id.provider, DecryptRow(master, l.id, rows[l.id]).value.refreshToken.value)
  {
    hide DecryptRow;
  }

  /** This load stores a new token. */
  predicate Refreshes(master: MasterKey, rows: Table, l: Load) {
    var answer := RefreshAnswer(master, rows, l);
    answer.Some? && answer.value.Ok?
  }

  function ExpiryAfter(now: int, expiresIn: Option<int>): Option<int> {
    if expiresIn.None? then None else Some(now + expiresIn.value)
  }

  function OldRefreshToken(master: MasterKey, rows: Table, l: Load): string
    requires Refreshes(master, rows, l)
  {
    DecryptRow(master, l.id, rows[l.id]).value.refreshToken.value
  }

  function RefreshedRow(master: MasterKey, rows: Table, l: Load): Row
    requires Refreshes(master, rows, l)
  {
    var answer := RefreshAnswer(master, rows, l).value.value;
    SealOAuth(master, l.id, answer.accessToken,
              if answer.refreshToken.Some? then answer.refreshToken else Some(OldRefreshToken(master, rows, l)),
              ExpiryAfter(l.now, answer.expiresIn), rows[l.id].scopes, l.draw)
  }

  /** The table after a load. */
  function AfterLoad(master: MasterKey, rows: Table, l: Load): Table {
    if Refreshes(master, rows, l) then rows[l.id := RefreshedRow(master, rows, l)] else rows
  }

  function MintedCredential(id: Id, row: Row, now: int, cred: Credential, token: TokenResponse): Credential {
    Credential(token.accessToken, None, id, row.scopes, ExpiryAfter(now, token.expiresIn), true, cred.metadata)
  }

  /** What a service account's load returns: a minted token, or what kept it from being minted. */
  function Minted(master: MasterKey, l: Load, row: Row): (r: Result<Credential, Error>)
    ensures var cred := DecryptRow(master, l.id, row);
            if cred.Err? then r == cred
            else if cred.value.metadata.None? then
              r == Err(ServiceAccountError("service account credential missing metadata"))
            else
              var token := l.refresher.mint(cred.value.accessToken, cred.value.metadata.value, cred.value.scopes);
              && (r.Ok? <==> token.Ok?)
              && (r.Err? ==> r.error == token.error)
              && (r.Ok? ==>
                    r.value == Credential(
                      token.value.accessToken, None, l.id, row.scopes,
                      if token.value.expiresIn.None? then None else Some(l.now + token.value.expiresIn.value),
                      true, cred.value.metadata))
  {
    match DecryptRow(master, l.id, row)
    case Err(e) => Err(e)
    case Ok(cred) =>
      if cred.metadata.None? then Err(ServiceAccountError("service account credential missing metadata"))
      else
        match l.refresher.mint(cred.accessToken, cred.metadata.value, cred.scopes)
        case Err(e) => Err(e)
        case Ok(token) => Ok(MintedCredential(l.id, row, l.now, cred, token))
  }

  /** What the load of an OAuth row returns when it stores nothing: the credential until a minute before
      it expires, and from then on the first of the errors on the way to a new token. */
  function Unrefreshed(master: MasterKey, l: Load, row: Row): (r: Result<Credential, Error>)
    ensures var cred := DecryptRow(master, l.id, row);
            && (cred.Err? ==> r == cred)
            && (cred.Ok? && (row.expiresAt.None? || l.now < row.expiresAt.value - 60) ==> r == cred)
            && (cred.Ok? && row.expiresAt.Some? && l.now >= row.expiresAt.value - 60 ==>
                  if cred.value.refreshToken.None? then
                    r == Err(CredentialInvalid("token expired but no refresh token available"))
                  else
                    var answer := l.refresher.refresh(l.id.provider, cred.value.refreshToken.value);
                    answer.Err? ==> r == Err(answer.error))
  {
    var cred := DecryptRow(master, l.id, row);
    if cred.Err? || !IsExpired(row.expiresAt, l.now) then cred
    else if cred.value.refreshToken.None? then Err(CredentialInvalid("token expired but no refresh token available"))
    else
      match l.refresher.refresh(l.id.provider, cred.value.refreshToken.value)
      case Err(e) => Err(e)
      case Ok(_) => cred
  }

  class CredentialStore {
    const master: MasterKey
    var rows: Table

    constructor (master: MasterKey)
      ensures this.master == master && rows == map[]
    {
      this.master := master;
      rows := map[];
    }

    /** Replaces any existing credential of the same key. */
    method Store(id: Id, access: string, refresh: Option<string>, expiresAt: Option<int>, scopes: string, draw: Draw)
      modifies this
      ensures rows == old(rows)[id := SealOAuth(master, id, access, refresh, expiresAt, scopes, draw)]
      ensures var row := rows[id];
              && row.kind == "oauth" && row.expiresAt == expiresAt && row.scopes == scopes && row.salt == draw.salt
              && row.createdAt == row.updatedAt == draw.storedAt && row.metadata == None
    {
      rows := rows[id := SealOAuth(master, id, access, refresh, expiresAt, scopes, draw)];
    }

    method StoreServiceAccount(id: Id, privateKey: string, metadata: Metadata, scopes: string, draw: Draw)
      modifies this
      ensures rows == old(rows)[id := SealServiceAccount(master, id, privateKey, metadata, scopes, draw)]
    {
      rows := rows[id := SealServiceAccount(master, id, privateKey, metadata, scopes, draw)];
    }

    method LoadCredential(id: Id) returns (r: Result<Credential, Error>)
      ensures r == if id in rows then DecryptRow(master, id, rows[id]) else Err(NotFound)
    {
      if id !in rows {
        return Err(NotFound);
      }
      r := DecryptRow(master, id, rows[id]);
    }

    method Delete(id: Id)
      modifies this
      ensures rows == old(rows) - {id}
    {
      rows := rows - {id};
    }

    method LoadAndRefresh(l: Load) returns (r: Result<Credential, Error>)
      requires |l.draw.salt| == 32
      modifies this
      ensures rows == AfterLoad(master, old(rows), l)
      ensures l.id !in old(rows) ==> r == Err(NotFound)
      ensures Refreshes(master, old(rows), l) ==>
                var answer := RefreshAnswer(master, old(rows), l).value.value;
                var refreshToken := if answer.refreshToken.Some? then answer.refreshToken.value
                                    else OldRefreshToken(master, old(rows), l);
                r == Ok(Credential(answer.accessToken, Some(refreshToken), l.id, old(rows)[l.id].scopes,
                                   ExpiryAfter(l.now, answer.expiresIn), false, None))
      ensures l.id in old(rows) && ServiceAccount(old(rows)[l.id]) ==> r == Minted(master, l, old(rows)[l.id])
      ensures l.id in old(rows) && !ServiceAccount(old(rows)[l.id]) && !Refreshes(master, old(rows), l) ==>
                r == Unrefreshed(master, l, old(rows)[l.id])
      ensures l.id in old(rows) && old(rows)[l.id].kind != "service_account" && r.Ok? ==>
                var row := old(rows)[l.id];
                var cred := DecryptRow(master, l.id, row);
                if row.expiresAt.None? || l.now < row.expiresAt.value - 60 then r == cred && rows == old(rows)
                else
                  && cred.Ok? && cred.value.refreshToken.Some?
                  && var answer := l.refresher.refresh(l.id.provider, cred.value.refreshToken.value);
                     && answer.Ok? && r.value.accessToken == answer.value.accessToken
                     && r.value.expiresAt == (if answer.value.expiresIn.None? then None
                                              else Some(l.now + answer.value.expiresIn.value))
    {
      if l.id !in rows {
        return Err(NotFound);
      }
      var row := rows[l.id];
      if ServiceAccount(row) {
        var cred := DecryptRow(master, l.id, row);
        if cred.Err? {
          return cred;
        }
        if cred.value.metadata.None? {
          return Err(ServiceAccountError("service account credential missing metadata"));
        }
        var token := l.refresher.mint(cred.value.accessToken, cred.value.metadata.value, cred.value.scopes);
        if token.Err? {
          return Err(token.error);
        }
        return Ok(MintedCredential(l.id, row, l.now, cred.value, token.value));
      }
      if !IsExpired(row.expiresAt, l.now) {
        r := DecryptRow(master, l.id, row);
        return;
      }
      var cred := DecryptRow(master, l.id, row);
      if cred.Err? {
        return cred;
      }
      if cred.value.refreshToken.None? {
        return Err(CredentialInvalid("token expired but no refresh token available"));
      }
      var refreshToken := cred.value.refreshToken.value;
      var answer := l.refresher.refresh(l.id.provider, refreshToken);
      if answer.Err? {
        return Err(answer.error);
      }
      var newRefresh := if answer.value.refreshToken.Some? then answer.value.refreshToken else Some(refreshToken);
      var expiresAt := ExpiryAfter(l.now, answer.value.expiresIn);
      Store(l.id, answer.value.accessToken, newRefresh, expiresAt, row.scopes, l.draw);
      StoreLoadRoundTrip(master, l.id, answer.value.accessToken, newRefresh, expiresAt, row.scopes, Metadata("", ""),
                         l.draw);
      r := LoadCredential(l.id);
    }
  }

  // ---------------------------------------------------------------- any sequence of loads

  function AfterLoads(master: MasterKey, rows: Table, loads: seq<Load>): Table {
    if loads == [] then rows
    else AfterLoad(master, AfterLoads(master, rows, loads[..|loads| - 1]), loads[|loads| - 1])
  }

  ghost predicate SaltsDrawn(loads: seq<Load>) {
    forall i :: 0 <= i < |loads| ==> |loads[i].draw.salt| == 32
  }

  /** The row has a refresh token that opens. */
  ghost predicate HoldsRefreshToken(master: MasterKey, rows: Table, id: Id) {
    id in rows && DecryptRow(master, id, rows[id]).Ok? && DecryptRow(master, id, rows[id]).value.refreshToken.Some?
  }

  /** A refresh is of an OAuth row, keeps its scopes, and leaves it with a refresh token that opens. */
  lemma RefreshKeeps(master: MasterKey, rows: Table, l: Load)
    requires Refreshes(master, rows, l) && |l.draw.salt| == 32
    ensures l.id in rows && !ServiceAccount(rows[l.id])
    ensures var row := RefreshedRow(master, rows, l);
            && row.scopes == rows[l.id].scopes && row.refreshToken.Some? && !ServiceAccount(row)
            && DecryptRow(master, l.id, row).Ok? && DecryptRow(master, l.id, row).value.refreshToken.Some?
  {
    var answer := RefreshAnswer(master, rows, l).value.value;
    StoreLoadRoundTrip(master, l.id, answer.accessToken,
                       if answer.refreshToken.Some? then answer.refreshToken
                       else Some(OldRefreshToken(master, rows, l)),
                       ExpiryAfter(l.now, answer.expiresIn), rows[l.id].scopes, Metadata("", ""), l.draw);
    assert "oauth"[0] == 'o' && "service_account"[0] == 's';
  }

  /** Over any sequence of loads no row appears or goes, scopes never change, and a row with a
      refresh token always keeps one, usable if it was usable; rows nobody loads and service accounts never change. */
  lemma {:induction false} LoadsPreserve(master: MasterKey, rows: Table, loads: seq<Load>, id: Id)
    requires SaltsDrawn(loads)
    ensures var after := AfterLoads(master, rows, loads);
            && after.Keys == rows.Keys
            && (id in rows ==> after[id].scopes == rows[id].scopes)
            && (id in rows && rows[id].refreshToken.Some? ==> after[id].refreshToken.Some?)
            && (HoldsRefreshToken(master, rows, id) ==> HoldsRefreshToken(master, after, id))
            && (id in rows && (ServiceAccount(rows[id]) || forall l <- loads :: l.id != id) ==> after[id] == rows[id])
    decreases |loads|
  {
    if loads == [] {
    } else {
      var n := |loads| - 1;
      LoadsPreserve(master, rows, loads[..n], id);
      var before := AfterLoads(master, rows, loads[..n]);
      var l := loads[n];
      hide DecryptRow, Refreshes, RefreshedRow;
      if Refreshes(master, before, l) {
        RefreshKeeps(master, before, l);
      }
      assert forall k <- loads[..n] :: k in loads;
      assert l in loads;
    }
  }

  /** None of the loads stores a new token for `id`. */
  ghost predicate NoRefreshOf(master: MasterKey, rows: Table, loads: seq<Load>, id: Id)
    decreases |loads|
  {
    loads != [] ==>
      var n := |loads| - 1;
      && NoRefreshOf(master, rows, loads[..n], id)
      && !(loads[n].id == id && Refreshes(master, AfterLoads(master, rows, loads[..n]), loads[n]))
  }

  lemma {:induction false} RowWaitsForRefresh(master: MasterKey, rows: Table, loads: seq<Load>, id: Id)
    requires id in rows && NoRefreshOf(master, rows, loads, id)
    ensures var after := AfterLoads(master, rows, loads); id in after && after[id] == rows[id]
    decreases |loads|
  {
    if loads == [] {
    } else {
      RowWaitsForRefresh(master, rows, loads[..|loads| - 1], id);
    }
  }

  /** After a refresh at time t of a token that lives e seconds, the next load of the same credential asks
      for a new one if and only if it comes at t + e - 60 or later; after one of a token without lifetime,
      never. */
  lemma NextRefreshIff(master: MasterKey, rows: Table, first: Load, between: seq<Load>, second: Load)
    requires Refreshes(master, rows, first) && second.id == first.id && |first.draw.salt| == 32
    requires NoRefreshOf(master, AfterLoad(master, rows, first), between, first.id)
    ensures var lifetime := RefreshAnswer(master, rows, first).value.value.expiresIn;
            RefreshAnswer(master, AfterLoads(master, AfterLoad(master, rows, first), between), second).Some? <==>
            lifetime.Some? && second.now >= first.now + lifetime.value - 60
  {
    RowWaitsForRefresh(master, AfterLoad(master, rows, first), between, first.id);
    RefreshKeeps(master, rows, first);
    var after := AfterLoads(master, AfterLoad(master, rows, first), between);
    assert after[first.id] == RefreshedRow(master, rows, first);
    hide AfterLoads, DecryptRow, Refreshes;
    EndpointAskedIff(master, after, second);
  }
}
