/** Refresh-token rotation with reuse detection, over a table of hashed tokens. */
module RefreshTokens {
  import opened Model

  type Hash = string

  datatype TokenRow = TokenRow(family: nat, apiKey: string, expires: int, valid: bool)

  type Table = map<Hash, TokenRow>

  datatype AuthError = MissingToken | InvalidToken | TokenReused | TokenExpired

  // ----- what each endpoint commits -----

  function Issue(rows: Table, hash: Hash, family: nat, apiKey: string, expires: int): Table {
    rows[hash := TokenRow(family, apiKey, expires, true)]
  }

  function Revoke(rows: Table, hash: Hash): Table {
    if hash in rows then rows[hash := rows[hash].(valid := false)] else rows
  }

  function RevokeFamily(rows: Table, family: nat): Table {
    map h | h in rows :: if rows[h].family == family then rows[h].(valid := false) else rows[h]
  }

  /** How a presented token is judged: unknown, reused, expired, or (None) accepted. */
  function Refusal(rows: Table, token: Option<Hash>, now: int): Option<AuthError> {
    match token
    case None => Some(MissingToken)
    case Some(h) =>
      if h !in rows then Some(InvalidToken)
      else if !rows[h].valid then Some(TokenReused)
      else if rows[h].expires < now then Some(TokenExpired)
      else None
  }

  function Refreshed(rows: Table, token: Option<Hash>, now: int, newHash: Hash, expires: int): Table {
    match Refusal(rows, token, now)
    case Some(TokenReused) =>
      if token.Some? && token.value in rows then RevokeFamily(rows, rows[token.value].family) else rows
    case Some(_) => rows
    case None =>
      if token.Some? && token.value in rows then
        Issue(Revoke(rows, token.value), newHash, rows[token.value].family, rows[token.value].apiKey, expires)
      else rows
  }

  /** The table, updated in place by the three endpoints. */
  class TokenTable {
    var rows: Table

    constructor ()
      ensures rows == map[]
    {
      rows := map[];
    }

    method Login(hash: Hash, family: nat, apiKey: string, expires: int)
      modifies this
      ensures rows == Issue(old(rows), hash, family, apiKey, expires)
      ensures rows.Keys == old(rows).Keys + {hash} && rows[hash] == TokenRow(family, apiKey, expires, true) &&
        forall h :: h in old(rows) && h != hash ==> rows[h] == old(rows)[h]
      ensures FreshIds(old(rows), LoginCall(hash, family, apiKey, expires)) && FamiliesOk(old(rows)) ==>
        FamiliesOk(rows) && Current(rows, hash, family)
    {
      rows := rows[hash := TokenRow(family, apiKey, expires, true)];
      if FreshIds(old(rows), LoginCall(hash, family, apiKey, expires)) && FamiliesOk(old(rows)) {
        CallKeepsFamilies(old(rows), LoginCall(hash, family, apiKey, expires));
      }
    }

    method Refresh(token: Option<Hash>, now: int, newHash: Hash, expires: int) returns (r: Result<Hash, AuthError>)
      modifies this
      ensures rows == Refreshed(old(rows), token, now, newHash, expires)
      ensures token.None? ==> r == Err(MissingToken) && rows == old(rows)
      ensures token.Some? && token.value !in old(rows) ==> r == Err(InvalidToken) && rows == old(rows)
      ensures token.Some? && token.value in old(rows) ==>
        var row := old(rows)[token.value];
        && (!row.valid ==>
              && r == Err(TokenReused) && rows.Keys == old(rows).Keys
              && forall h :: h in rows ==> rows[h] == TokenRow(
                   old(rows)[h].family, old(rows)[h].apiKey, old(rows)[h].expires,
                   old(rows)[h].valid && old(rows)[h].family != row.family))
        && (row.valid && row.expires < now ==> r == Err(TokenExpired) && rows == old(rows))
        && (row.valid && row.expires >= now ==>
              && r == Ok(newHash) && rows.Keys == old(rows).Keys + {newHash}
              && rows[newHash] == TokenRow(row.family, row.apiKey, expires, true)
              && (token.value != newHash ==>
                    rows[token.value] == TokenRow(row.family, row.apiKey, row.expires, false))
              && forall h :: h in old(rows) && h != token.value && h != newHash ==> rows[h] == old(rows)[h])
    {
      if token.None? {
        return Err(MissingToken);
      }
      var h := token.value;
      if h !in rows {
        return Err(InvalidToken);
      }
      var row := rows[h];
      if !row.valid {
        rows := map x | x in rows :: if rows[x].family == row.family then rows[x].(valid := false) else rows[x];
        return Err(TokenReused);
      }
      if row.expires < now {
        return Err(TokenExpired);
      }
      rows := rows[h := row.(valid := false)];
      rows := rows[newHash := TokenRow(row.family, row.apiKey, expires, true)];
      r := Ok(newHash);
    }

    method Logout(token: Option<Hash>)
      modifies this
      ensures rows == if token.Some? then Revoke(old(rows), token.value) else old(rows)
      ensures rows.Keys == old(rows).Keys
      ensures forall h :: h in rows ==> rows[h] == TokenRow(
        old(rows)[h].family, old(rows)[h].apiKey, old(rows)[h].expires, old(rows)[h].valid && token != Some(h))
    {
      if token.Some? && token.value in rows {
        rows := rows[token.value := rows[token.value].(valid := false)];
      }
    }
  }

  // ----- runs -----

  datatype Call =
    | LoginCall(hash: Hash, family: nat, apiKey: string, expires: int)
    | RefreshCall(token: Option<Hash>, now: int, newHash: Hash, expires: int)
    | LogoutCall(token: Option<Hash>)

  ghost predicate FamilyUsed(rows: Table, family: nat) {
    exists h :: h in rows && rows[h].family == family
  }

  /** Random tokens and family ids are fresh. */
  ghost predicate FreshIds(rows: Table, call: Call) {
    match call
    case LoginCall(h, f, _, _) => h !in rows && !FamilyUsed(rows, f)
    case RefreshCall(_, _, h, _) => h !in rows
    case LogoutCall(_) => true
  }

  function After(rows: Table, call: Call): Table {
    match call
    case LoginCall(h, f, k, e) => Issue(rows, h, f, k, e)
    case RefreshCall(t, now, h, e) => Refreshed(rows, t, now, h, e)
    case LogoutCall(t) => if t.Some? then Revoke(rows, t.value) else rows
  }

  ghost predicate Answered(rows: Table, call: Call, rows': Table) {
    FreshIds(rows, call) && rows' == After(rows, call)
  }

  /** Any interleaving of calls, with any clock readings. */
  ghost predicate Run(tables: seq<Table>, calls: seq<Call>) {
    && |tables| == |calls| + 1
    && tables[0] == map[]
    && forall i, j :: 0 <= i < j < |tables| && j == i + 1 ==> Answered(tables[i], calls[i], tables[j])
  }

  /** Every call may come next in every run, as long as the token it would issue and, for a login, its family are
      new; a logout always may. */
  lemma AnyCallMayFollow(tables: seq<Table>, calls: seq<Call>, call: Call) returns (longer: seq<Table>)
    requires Run(tables, calls)
    requires !call.LogoutCall? ==>
      (if call.LoginCall? then call.hash else call.newHash) !in tables[|calls|]
    requires call.LoginCall? ==> forall h :: h in tables[|calls|] ==> tables[|calls|][h].family != call.family
    ensures Run(longer, calls + [call]) && longer[..|tables|] == tables
    ensures longer[|tables|] == After(tables[|calls|], call)
  {
    longer := tables + [After(tables[|calls|], call)];
    var more := calls + [call];
    assert Answered(tables[|calls|], call, After(tables[|calls|], call));
    forall i, j | 0 <= i < j < |longer| && j == i + 1 ensures Answered(longer[i], more[i], longer[j]) {
      if j < |tables| { assert Answered(tables[i], calls[i], tables[j]); }
    }
  }

  // ----- families -----

  /** At most one valid token per family, and one api key per family. */
  ghost predicate FamiliesOk(rows: Table) {
    && (forall g, h ::
          g in rows && h in rows && rows[g].family == rows[h].family && rows[g].valid && rows[h].valid ==> g == h)
    && (forall g, h :: g in rows && h in rows && rows[g].family == rows[h].family ==> rows[g].apiKey == rows[h].apiKey)
  }

  lemma CallKeepsFamilies(rows: Table, call: Call)
    requires FamiliesOk(rows) && FreshIds(rows, call)
    ensures FamiliesOk(After(rows, call))
  {
    if call.LoginCall? {
      assert forall h :: h in rows ==> rows[h].family != call.family;
    }
  }

  lemma {:induction false} FamiliesAlwaysOk(tables: seq<Table>, calls: seq<Call>, i: nat)
    requires Run(tables, calls) && i < |tables|
    ensures FamiliesOk(tables[i])
    decreases i
  {
    if i > 0 {
      FamiliesAlwaysOk(tables, calls, i - 1);
      assert Answered(tables[i - 1], calls[i - 1], tables[i]);
      CallKeepsFamilies(tables[i - 1], calls[i - 1]);
    }
  }

  ghost predicate DeadFamily(rows: Table, family: nat) {
    FamilyUsed(rows, family) && forall h :: h in rows && rows[h].family == family ==> !rows[h].valid
  }

  /** Tokens keep their family, and an invalid token stays invalid. */
  ghost predicate TokensEvolve(before: Table, after: Table) {
    && (forall h :: h in before ==>
          h in after && after[h].family == before[h].family && (after[h].valid ==> before[h].valid))
    && forall f :: DeadFamily(before, f) ==> DeadFamily(after, f)
  }

  lemma CallEvolves(rows: Table, call: Call)
    requires FreshIds(rows, call)
    ensures TokensEvolve(rows, After(rows, call))
  {
    var after := After(rows, call);
    assert forall h :: h in rows ==>
      h in after && after[h].family == rows[h].family && (after[h].valid ==> rows[h].valid);
    forall f | DeadFamily(rows, f) ensures DeadFamily(after, f) {
      var g :| g in rows && rows[g].family == f;
      assert g in after && after[g].family == f;
      forall h | h in after && after[h].family == f ensures !after[h].valid {
        if h !in rows { NewTokenIsOfLiveFamily(rows, call, h); }
      }
    }
  }

  /** A token appears only in a new family, or in one whose presented token was still valid. */
  lemma NewTokenIsOfLiveFamily(rows: Table, call: Call, h: Hash)
    requires FreshIds(rows, call) && h in After(rows, call) && h !in rows
    ensures !DeadFamily(rows, After(rows, call)[h].family)
  {
  }

  lemma NextEvolves(tables: seq<Table>, calls: seq<Call>, i: nat)
    requires Run(tables, calls) && i < |calls|
    ensures TokensEvolve(tables[i], tables[i + 1])
  {
    assert Answered(tables[i], calls[i], tables[i + 1]);
    CallEvolves(tables[i], calls[i]);
  }

  lemma {:induction false} ChainEvolves(tables: seq<Table>, i: nat, j: nat)
    requires i <= j < |tables|
    requires forall k, l :: 0 <= k < l < |tables| && l == k + 1 ==> TokensEvolve(tables[k], tables[l])
    ensures TokensEvolve(tables[i], tables[j])
    decreases j
  {
    if i < j {
      ChainEvolves(tables, i, j - 1);
      EvolveTransitive(tables[i], tables[j - 1], tables[j]);
    }
  }

  lemma TokensEvolveOverRun(tables: seq<Table>, calls: seq<Call>, i: nat, j: nat)
    requires Run(tables, calls) && i <= j < |tables|
    ensures TokensEvolve(tables[i], tables[j])
  {
    forall k, l | 0 <= k < l < |tables| && l == k + 1 ensures TokensEvolve(tables[k], tables[l]) {
      NextEvolves(tables, calls, k);
    }
    ChainEvolves(tables, i, j);
  }

  lemma EvolveTransitive(a: Table, b: Table, c: Table)
    requires TokensEvolve(a, b) && TokensEvolve(b, c)
    ensures TokensEvolve(a, c)
  {
  }

  // ----- reuse detection -----

  predicate Accepts(rows: Table, call: Call) {
    call.RefreshCall? && Refusal(rows, call.token, call.now).None?
  }

  /** A refresh with a token of `family`. */
  predicate Presents(rows: Table, call: Call, family: nat) {
    call.RefreshCall? && call.token.Some? && call.token.value in rows && rows[call.token.value].family == family
  }

  /** Presenting a token that was rotated before, at any later time and expired or not, is answered as
      reuse, kills its whole family for good, and touches no other family. */
  lemma ReuseKillsFamily(tables: seq<Table>, calls: seq<Call>, i: nat, j: nat, k: nat)
    requires Run(tables, calls) && i < j < k < |tables|
    requires Accepts(tables[i], calls[i])
    requires calls[j].RefreshCall? && calls[j].token == calls[i].token
    ensures Refusal(tables[j], calls[j].token, calls[j].now) == Some(TokenReused)
    ensures
      var h := calls[j].token.value;
      && h in tables[j] && DeadFamily(tables[k], tables[j][h].family)
      && (forall g :: g in tables[j] && tables[j][g].family != tables[j][h].family ==>
            g in tables[j + 1] && tables[j + 1][g] == tables[j][g])
      && tables[j + 1].Keys == tables[j].Keys
  {
    var h := calls[i].token.value;
    assert Answered(tables[i], calls[i], tables[i + 1]);
    assert h in tables[i + 1] && !tables[i + 1][h].valid;
    TokensEvolveOverRun(tables, calls, i + 1, j);
    assert h in tables[j] && !tables[j][h].valid;
    assert Answered(tables[j], calls[j], tables[j + 1]);
    ReuseRevokes(tables[j], calls[j]);
    TokensEvolveOverRun(tables, calls, j + 1, k);
  }

  lemma ReuseRevokes(rows: Table, call: Call)
    requires call.RefreshCall? && call.token.Some? && call.token.value in rows && !rows[call.token.value].valid
    ensures After(rows, call) == RevokeFamily(rows, rows[call.token.value].family)
    ensures DeadFamily(After(rows, call), rows[call.token.value].family)
  {
    var after := After(rows, call);
    assert call.token.value in after && after[call.token.value].family == rows[call.token.value].family;
  }

  /** No token is ever accepted twice. */
  lemma AcceptedOnce(tables: seq<Table>, calls: seq<Call>, i: nat, j: nat)
    requires Run(tables, calls) && i < j < |calls|
    requires Accepts(tables[i], calls[i]) && calls[j].RefreshCall? && calls[j].token == calls[i].token
    ensures !Accepts(tables[j], calls[j])
  {
    ReuseKillsFamily(tables, calls, i, j, j + 1);
  }

  /** `h` is the one valid token of its family. */
  ghost predicate Current(rows: Table, h: Hash, family: nat) {
    && h in rows && rows[h].family == family && rows[h].valid
    && forall g :: g in rows && rows[g].family == family && rows[g].valid ==> g == h
  }

  /** An accepted refresh hands the family over to the new token, which is the next one to be accepted,
      until it expires; no other family changes. */
  lemma RotationContinues(tables: seq<Table>, calls: seq<Call>, i: nat, next: Hash, now: int, expires: int)
    requires Run(tables, calls) && i < |calls| && Accepts(tables[i], calls[i])
    ensures
      var used, issued := calls[i].token.value, calls[i].newHash;
      && used in tables[i] && issued in tables[i + 1]
      && Current(tables[i], used, tables[i][used].family) && Current(tables[i + 1], issued, tables[i][used].family)
      && tables[i + 1][issued].apiKey == tables[i][used].apiKey
      && (Accepts(tables[i + 1], RefreshCall(Some(issued), now, next, expires)) <==> now <= calls[i].expires)
      && !Accepts(tables[i + 1], RefreshCall(Some(used), now, next, expires))
      && forall g :: g in tables[i] && g != used ==> g in tables[i + 1] && tables[i + 1][g] == tables[i][g]
  {
    FamiliesAlwaysOk(tables, calls, i);
    assert Answered(tables[i], calls[i], tables[i + 1]);
    Rotates(tables[i], calls[i]);
  }

  lemma Rotates(rows: Table, call: Call)
    requires FamiliesOk(rows) && FreshIds(rows, call) && Accepts(rows, call)
    ensures call.token.Some? && call.token.value in rows && call.newHash in After(rows, call)
    ensures Current(rows, call.token.value, rows[call.token.value].family)
    ensures Current(After(rows, call), call.newHash, rows[call.token.value].family)
    ensures After(rows, call) ==
      rows[call.token.value := rows[call.token.value].(valid := false)]
          [call.newHash := rows[call.token.value].(expires := call.expires)]
  {
  }

  /** After logout, or after any refusal as reused, the family issues no token any more. */
  lemma DeadFamilyStaysDead(tables: seq<Table>, calls: seq<Call>, i: nat, j: nat, family: nat)
    requires Run(tables, calls) && i <= j < |tables| && DeadFamily(tables[i], family)
    ensures DeadFamily(tables[j], family)
    ensures j < |calls| && Presents(tables[j], calls[j], family) ==> !Accepts(tables[j], calls[j])
  {
    TokensEvolveOverRun(tables, calls, i, j);
  }

  /** Logging out with a family's valid token kills the family. */
  lemma LogoutKillsFamily(tables: seq<Table>, calls: seq<Call>, i: nat, j: nat)
    requires Run(tables, calls) && i < j < |tables| && calls[i].LogoutCall? && calls[i].token.Some?
    requires calls[i].token.value in tables[i] && tables[i][calls[i].token.value].valid
    ensures DeadFamily(tables[j], tables[i][calls[i].token.value].family)
  {
    var h := calls[i].token.value;
    FamiliesAlwaysOk(tables, calls, i);
    assert Answered(tables[i], calls[i], tables[i + 1]);
    assert h in tables[i + 1] && tables[i + 1][h].family == tables[i][h].family;
    TokensEvolveOverRun(tables, calls, i + 1, j);
  }
}
