/** Setting up, pairing and removing a phone as ordered durable writes. */
module Setup {
  // Every durable state is kept in a history, so what holds of the whole history holds after a crash between any two
  // writes.

  import opened Wrappers

  datatype Kind = DatabaseKey | ContextCapability | HostTransport | HostRelayAccess

  datatype Account = Account(kind: Kind, prefix: string)

  /** What the relay provisions: a route, and a host token for it that ends at `expiresAt` and is never renewed. */
  datatype Route = Route(routingId: string, expiresAt: int)

  datatype Secret = Text(text: string) | RelayAccess(route: Route)

  datatype Device = Device(active: bool, mobileControl: bool)

  /** The encrypted store opens with its key only. */
  datatype Database = Database(key: string, devices: map<string, Device>)

  datatype Pairing = Pairing(routingId: string, revocationPending: bool)

  datatype Config = Config(prefix: string, pairing: Option<Pairing>)

  /** Everything that survives a crash; `revoked` lists the routes the relay has revoked. */
  datatype Disk = Disk(
    secrets: map<Account, Secret>,
    config: Option<Config>,
    database: Option<Database>,
    revoked: set<string>)

  const EMPTY := Disk(map[], None, None, {})

  datatype SetupError = Fault | UnconfiguredDatabase | AlreadyPaired | NotActive | SecretsMissing | NotConfigured

  /** How a call to the outside ends; one that fails may have taken effect all the same. */
  datatype Outcome = Done | Failed | FailedAfter

  /** How the calls of setting up end, by account where there is one call for each. */
  datatype Calls = Calls(
    loaded: bool, created: Outcome, puts: Account -> Outcome, written: bool, deletes: Account -> Outcome,
    removed: Outcome)

  /** How far a pairing conversation gets: to the registration of the phone, and to its end. */
  datatype Conversation = Conversation(provisioned: bool, reached: bool, finished: bool)

  /** How the calls of one attempt at completing a removal end, and the relay's clock when it is asked. */
  datatype Attempt = Attempt(now: int, readable: bool, answer: Outcome, forgotten: bool, deleted: Outcome) {
    predicate FaultFree() { readable && answer == Done && forgotten && deleted == Done }
  }

  // ----- what every durable state satisfies -----

  function Paired(d: Disk): Option<Pairing> {
    if d.config.Some? then d.config.value.pairing else None
  }

  predicate ActiveMobile(d: Disk, id: string) {
    && d.database.Some? && id in d.database.value.devices
    && d.database.value.devices[id].active && d.database.value.devices[id].mobileControl
  }

  ghost predicate NoActiveMobile(d: Disk) { forall id :: !ActiveMobile(d, id) }

  /** A stored config has its secrets and its database, and the stored key opens it. */
  predicate Configured(d: Disk) {
    d.config.Some? ==>
      var p := d.config.value.prefix;
      && d.database.Some? && Account(DatabaseKey, p) in d.secrets
      && d.secrets[Account(DatabaseKey, p)] == Text(d.database.value.key)
      && Account(ContextCapability, p) in d.secrets && Account(HostTransport, p) in d.secrets
  }

  /** A stored pairing has the secret that can revoke its own route. */
  predicate Removable(d: Disk) {
    Paired(d).Some? ==>
      var account := Account(HostRelayAccess, d.config.value.prefix);
      && account in d.secrets && d.secrets[account].RelayAccess?
      && d.secrets[account].route.routingId == Paired(d).value.routingId
  }

  /** When the host token of the stored pairing ends. */
  function Expiry(d: Disk): int
    requires Removable(d) && Paired(d).Some?
  {
    d.secrets[Account(HostRelayAccess, d.config.value.prefix)].route.expiresAt
  }

  /**
   * The relay lets a host token revoke the route it names until it ends, whether or not the route is revoked already.
   */
  predicate Opens(token: Secret, routingId: string, now: int) {
    token.RelayAccess? && token.route.routingId == routingId && now < token.route.expiresAt
  }

  predicate Sound(d: Disk) { Configured(d) && Removable(d) }

  /**
   * One durable write: revocations stay, the config stays, a pairing only gains its tombstone or, once its route is
   * revoked, goes away; while a pairing is stored no phone becomes active, and none is withdrawn before the tombstone.
   */
  ghost predicate Allowed(d: Disk, e: Disk) {
    && d.revoked <= e.revoked
    && (d.config.Some? ==> e.config.Some? && e.config.value.prefix == d.config.value.prefix)
    && (Paired(d).Some? ==>
          && (Paired(e).None? ==> Paired(d).value.routingId in d.revoked)
          && (Paired(e).Some? ==>
                && Paired(e).value.routingId == Paired(d).value.routingId
                && (Paired(d).value.revocationPending ==> Paired(e).value.revocationPending))
          && (forall id | ActiveMobile(e, id) :: ActiveMobile(d, id))
          && (!Paired(d).value.revocationPending ==> forall id | ActiveMobile(d, id) :: ActiveMobile(e, id)))
  }

  ghost predicate History(trace: seq<Disk>) {
    && |trace| > 0
    && (forall i | 0 <= i < |trace| :: Sound(trace[i]))
    && (forall i | 0 <= i < |trace| - 1 :: Allowed(trace[i], trace[i + 1]))
  }

  lemma {:induction false} HistoryGrows(trace: seq<Disk>, d: Disk)
    requires History(trace) && Sound(d) && Allowed(trace[|trace| - 1], d)
    ensures History(trace + [d])
  {
    var longer := trace + [d];
    forall i | 0 <= i < |longer| - 1 ensures Allowed(longer[i], longer[i + 1]) {
      assert longer[i] == trace[i];
      assert i < |trace| - 1 ==> longer[i + 1] == trace[i + 1];
    }
  }

  // ----- what that means over a whole history -----

  /** Where a pairing stops being stored, its route had been revoked. */
  lemma {:induction false} UnpairedMeansRevoked(trace: seq<Disk>, i: nat, j: nat)
    requires History(trace) && i < j < |trace| && Paired(trace[i]).Some?
    requires Paired(trace[j]).None? || Paired(trace[j]).value.routingId != Paired(trace[i]).value.routingId
    ensures Paired(trace[i]).value.routingId in trace[j].revoked
    decreases j - i
  {
    assert Allowed(trace[i], trace[i + 1]);
    if Paired(trace[i + 1]).None? {
      RevokedStays(trace, i, j);
    } else if i + 1 < j {
      UnpairedMeansRevoked(trace, i + 1, j);
    }
  }

  lemma {:induction false} RevokedStays(trace: seq<Disk>, i: nat, j: nat)
    requires History(trace) && i <= j < |trace|
    ensures trace[i].revoked <= trace[j].revoked
    decreases j - i
  {
    if i < j {
      assert Allowed(trace[i], trace[i + 1]);
      RevokedStays(trace, i + 1, j);
    }
  }

  /** Removal sticks: with the tombstone stored and no phone active, none becomes active before the pairing is gone. */
  lemma {:induction false} RemovalSticks(trace: seq<Disk>, i: nat, j: nat)
    requires History(trace) && i <= j < |trace|
    requires forall k | i <= k <= j :: Paired(trace[k]).Some?
    requires Paired(trace[i]).value.revocationPending && NoActiveMobile(trace[i])
    ensures Paired(trace[j]).value.revocationPending && NoActiveMobile(trace[j])
    ensures Paired(trace[j]).value.routingId == Paired(trace[i]).value.routingId
    decreases j - i
  {
    if i < j {
      assert Allowed(trace[i], trace[i + 1]);
      RemovalSticks(trace, i + 1, j);
    }
  }

  /** A phone withdrawn while its pairing is stored had the tombstone written first. */
  lemma {:induction false} TombstoneComesFirst(trace: seq<Disk>, i: nat, j: nat, id: string)
    requires History(trace) && i <= j < |trace|
    requires forall k | i <= k <= j :: Paired(trace[k]).Some?
    requires ActiveMobile(trace[i], id) && !ActiveMobile(trace[j], id)
    ensures Paired(trace[j]).value.revocationPending
    decreases j - i
  {
    assert Allowed(trace[i], trace[i + 1]);
    if ActiveMobile(trace[i + 1], id) {
      TombstoneComesFirst(trace, i + 1, j, id);
    } else {
      TombstoneStays(trace, i, j);
    }
  }

  lemma {:induction false} TombstoneStays(trace: seq<Disk>, i: nat, j: nat)
    requires History(trace) && i <= j < |trace|
    requires forall k | i <= k <= j :: Paired(trace[k]).Some?
    requires Paired(trace[i]).value.revocationPending
    ensures Paired(trace[j]).value.revocationPending
      && Paired(trace[j]).value.routingId == Paired(trace[i]).value.routingId
    decreases j - i
  {
    if i < j {
      assert Allowed(trace[i], trace[i + 1]);
      TombstoneStays(trace, i + 1, j);
    }
  }

  lemma {:induction false} HistoryCut(trace: seq<Disk>, k: nat)
    requires History(trace) && k < |trace|
    ensures History(trace[..k + 1])
  {
    var cut := trace[..k + 1];
    forall i | 0 <= i < |cut| - 1 ensures Allowed(cut[i], cut[i + 1]) {
      assert cut[i] == trace[i] && cut[i + 1] == trace[i + 1];
    }
  }

  // ----- secrets stored in order, and deleted again -----

  function Put(base: map<Account, Secret>, secrets: seq<(Account, Secret)>, n: nat): map<Account, Secret>
    requires n <= |secrets|
  {
    if n == 0 then base else Put(base, secrets, n - 1)[secrets[n - 1].0 := secrets[n - 1].1]
  }

  /** How many calls succeed before the first that does not. */
  function Stored(secrets: seq<(Account, Secret)>, puts: Account -> Outcome): (n: nat)
    ensures n <= |secrets| && (forall i | 0 <= i < n :: puts(secrets[i].0) == Done)
    ensures n < |secrets| ==> puts(secrets[n].0) != Done
  {
    if secrets == [] || puts(secrets[0].0) != Done then 0 else 1 + Stored(secrets[1..], puts)
  }

  /** How many secrets are stored in the end: those, and the failed one if it was stored all the same. */
  function Landed(secrets: seq<(Account, Secret)>, puts: Account -> Outcome): (n: nat)
    ensures n <= |secrets|
  {
    var n := Stored(secrets, puts);
    if n < |secrets| && puts(secrets[n].0) == FailedAfter then n + 1 else n
  }

  function Deleted(accounts: seq<Account>, deletes: Account -> Outcome): set<Account> {
    set a | a in accounts && deletes(a) != Failed
  }

  function Accounts(secrets: seq<(Account, Secret)>): seq<Account> {
    seq(|secrets|, i requires 0 <= i < |secrets| => secrets[i].0)
  }

  lemma {:induction false} PutChangesOnlyThese(
    base: map<Account, Secret>, secrets: seq<(Account, Secret)>, n: nat, a: Account)
    requires n <= |secrets| && a !in Accounts(secrets)[..n]
    ensures a in Put(base, secrets, n) <==> a in base
    ensures a in base ==> Put(base, secrets, n)[a] == base[a]
  {
    if n > 0 {
      assert Accounts(secrets)[..n][n - 1] == secrets[n - 1].0;
      assert forall i | 0 <= i < n - 1 :: Accounts(secrets)[..n - 1][i] == Accounts(secrets)[..n][i];
      PutChangesOnlyThese(base, secrets, n - 1, a);
    }
  }

  lemma {:induction false} PutStores(base: map<Account, Secret>, secrets: seq<(Account, Secret)>, n: nat, i: nat)
    requires i < n <= |secrets| && forall j, k | 0 <= j < k < |secrets| :: secrets[j].0 != secrets[k].0
    ensures secrets[i].0 in Put(base, secrets, n) && Put(base, secrets, n)[secrets[i].0] == secrets[i].1
  {
    if i < n - 1 { PutStores(base, secrets, n - 1, i); }
  }

  /**
   * The cleanup leaves what was there before, less any leftover under the same accounts, when no failed call took
   * effect and every deletion does.
   */
  lemma {:induction false} CleanupRestores(
    base: map<Account, Secret>, secrets: seq<(Account, Secret)>, puts: Account -> Outcome, deletes: Account -> Outcome)
    requires forall i | 0 <= i < |secrets| :: puts(secrets[i].0) != FailedAfter && deletes(secrets[i].0) != Failed
    ensures var written := Accounts(secrets)[..Stored(secrets, puts)];
      Put(base, secrets, Landed(secrets, puts)) - Deleted(written, deletes) == base - (set a | a in written)
  {
    var n := Stored(secrets, puts);
    var written := Accounts(secrets)[..n];
    var cleaned := Put(base, secrets, n) - Deleted(written, deletes);
    assert forall i | 0 <= i < n :: written[i] == secrets[i].0;
    assert Deleted(written, deletes) == set a | a in written;
    forall a | a !in written
      ensures a in cleaned <==> a in base
      ensures a in base ==> cleaned[a] == base[a]
    {
      PutChangesOnlyThese(base, secrets, n, a);
    }
  }

  // ----- the laptop -----

  function CoreSecrets(prefix: string, key: string): seq<(Account, Secret)> {
    [(Account(DatabaseKey, prefix), Text(key)), (Account(ContextCapability, prefix), Text("capability")),
     (Account(HostTransport, prefix), Text("transport"))]
  }

  /** What pairing stores: the relay secret, after the core secrets where there was no config yet. */
  function PairingSecrets(first: bool, prefix: string, key: string, route: Route): seq<(Account, Secret)> {
    (if first then CoreSecrets(prefix, key) else []) + [(Account(HostRelayAccess, prefix), RelayAccess(route))]
  }

  function CoreAccounts(prefix: string): set<Account> {
    {Account(DatabaseKey, prefix), Account(ContextCapability, prefix), Account(HostTransport, prefix)}
  }

  function PairingAccounts(first: bool, prefix: string): set<Account> {
    {Account(HostRelayAccess, prefix)} + if first then CoreAccounts(prefix) else {}
  }

  lemma {:induction false} StoresEvery(first: bool, prefix: string, key: string, route: Route, puts: Account -> Outcome)
    ensures var secrets := PairingSecrets(first, prefix, key, route);
      Stored(secrets, puts) == |secrets| <==> forall a | a in PairingAccounts(first, prefix) :: puts(a) == Done
  {
    var secrets := PairingSecrets(first, prefix, key, route);
    assert secrets[|secrets| - 1].0 == Account(HostRelayAccess, prefix);
    if first {
      assert secrets[0].0 == Account(DatabaseKey, prefix) && secrets[1].0 == Account(ContextCapability, prefix);
      assert secrets[2].0 == Account(HostTransport, prefix);
    }
    assert forall i | 0 <= i < |secrets| :: secrets[i].0 in PairingAccounts(first, prefix);
  }

  /** With the core secrets stored a config may be stored. */
  lemma {:induction false} StoredConfigIsSound(d: Disk, prefix: string, key: string, puts: Account -> Outcome)
    requires d.config.None? && d.database == Some(Database(key, map[]))
    ensures var secrets := CoreSecrets(prefix, key);
      var before := d.(secrets := Put(d.secrets, secrets, |secrets|));
      var after := before.(config := Some(Config(prefix, None)));
      && Sound(after) && Allowed(before, after)
      && (Stored(secrets, puts) == |secrets| <==> forall a | a in CoreAccounts(prefix) :: puts(a) == Done)
  {
    var secrets := CoreSecrets(prefix, key);
    PutStores(d.secrets, secrets, 3, 0);
    PutStores(d.secrets, secrets, 3, 1);
    PutStores(d.secrets, secrets, 3, 2);
    assert secrets[0].0 == Account(DatabaseKey, prefix) && secrets[1].0 == Account(ContextCapability, prefix);
    assert secrets[2].0 == Account(HostTransport, prefix);
    assert forall i | 0 <= i < |secrets| :: secrets[i].0 in CoreAccounts(prefix);
  }

  /** The store takes a device that is new or was revoked. */
  predicate CanRegister(d: Disk, id: string) {
    d.database.Some? ==> id in d.database.value.devices ==> !d.database.value.devices[id].active
  }

  /** The pairing conversation starts. */
  predicate Converses(d: Disk, c: Conversation, o: Calls) {
    && Paired(d).None? && c.provisioned
    && (if d.config.Some? then o.loaded else d.database.None? && o.created == Done)
  }

  /** The pairing conversation registers the phone. */
  predicate Registers(d: Disk, id: string, c: Conversation, o: Calls) {
    Converses(d, c, o) && c.reached && CanRegister(d, id)
  }

  /** The stored pairing, its route and all secrets stay. */
  predicate Kept(d: Disk, e: Disk) {
    Paired(d).Some? ==>
      && Paired(e).Some? && Paired(e).value.routingId == Paired(d).value.routingId
      && e.config.value.prefix == d.config.value.prefix && e.secrets == d.secrets
  }

  /** Exactly these devices are no longer active; all else stays. */
  ghost predicate Withdraws(before: Option<Database>, after: Option<Database>, ids: set<string>) {
    && (before.None? <==> after.None?)
    && (before.Some? ==>
          && after.value.key == before.value.key && after.value.devices.Keys == before.value.devices.Keys
          && forall id | id in before.value.devices :: after.value.devices[id] ==
               before.value.devices[id].(active := before.value.devices[id].active && id !in ids))
  }

  lemma {:induction false} KeptSelf(d: Disk)
    ensures Kept(d, d)
  {
  }

  lemma {:induction false} KeptBoth(a: Disk, b: Disk, c: Disk)
    requires Kept(a, b) && Kept(b, c)
    ensures Kept(a, c)
  {
  }

  lemma {:induction false} WithdrawsNone(database: Option<Database>, ids: set<string>)
    requires ids == {}
    ensures Withdraws(database, database, ids)
  {
  }

  lemma {:induction false} WithdrawsMore(
    a: Option<Database>, b: Option<Database>, c: Option<Database>, ids: set<string>, id: string, all: set<string>)
    requires Withdraws(a, b, ids) && Withdraws(b, c, {id}) && all == ids + {id}
    ensures Withdraws(a, c, all)
  {
    assert b.Some? ==> forall other | other in a.value.devices :: other in b.value.devices;
  }

  ghost function ActiveMobiles(d: Disk): set<string> {
    if d.database.Some? then set id | id in d.database.value.devices && ActiveMobile(d, id) else {}
  }

  /** With its secrets stored a pairing may be stored, too. */
  lemma {:induction false} StoredPairingIsSound(d: Disk, prefix: string, key: string, route: Route)
    requires Sound(d) && Paired(d).None? && d.database.Some? && d.database.value.key == key
    requires d.config.Some? ==> d.config.value.prefix == prefix
    ensures var secrets := PairingSecrets(d.config.None?, prefix, key, route);
      var before := d.(secrets := Put(d.secrets, secrets, |secrets|));
      var after := before.(config := Some(Config(prefix, Some(Pairing(route.routingId, false)))));
      Sound(after) && Allowed(before, after) && Expiry(after) == route.expiresAt
  {
    var secrets := PairingSecrets(d.config.None?, prefix, key, route);
    var relay := |secrets| - 1;
    PutStores(d.secrets, secrets, |secrets|, relay);
    if d.config.None? {
      PutStores(d.secrets, secrets, 4, 0);
      PutStores(d.secrets, secrets, 4, 1);
      PutStores(d.secrets, secrets, 4, 2);
    }
  }

  class Laptop {
    var disk: Disk
    var trace: seq<Disk>       // every durable state so far

    ghost predicate Valid()
      reads this
    {
      History(trace) && trace[|trace| - 1] == disk
    }

    constructor ()
      ensures Valid() && disk == EMPTY && trace == [disk]
    {
      disk := EMPTY;
      trace := [EMPTY];
    }

    // ----- durable writes -----

    method Write(d: Disk)
      requires Valid() && Sound(d) && Allowed(disk, d)
      modifies this
      ensures Valid() && disk == d && trace == old(trace) + [d]
    {
      HistoryGrows(trace, d);
      disk := d;
      trace := trace + [d];
    }

    method PutSecret(account: Account, secret: Secret, o: Outcome) returns (ok: bool)
      requires Valid()
      requires disk.config.None? || (Paired(disk).None? && account.kind.HostRelayAccess?)
      modifies this
      ensures Valid() && old(trace) <= trace && ok == (o == Done)
      ensures disk == if o != Failed then old(disk).(secrets := old(disk).secrets[account := secret]) else old(disk)
    {
      if o != Failed { Write(disk.(secrets := disk.secrets[account := secret])); }
      return o == Done;
    }

    method DeleteSecret(account: Account, o: Outcome) returns (ok: bool)
      requires Valid()
      requires disk.config.None? || (Paired(disk).None? && account.kind.HostRelayAccess?)
      modifies this
      ensures Valid() && old(trace) <= trace && ok == (o == Done)
      ensures disk == if o != Failed then old(disk).(secrets := old(disk).secrets - {account}) else old(disk)
    {
      if o != Failed { Write(disk.(secrets := disk.secrets - {account})); }
      return o == Done;
    }

    /** The config is written aside and renamed into place last, so a failed write changes nothing. */
    method WritePrivateConfig(config: Config, written: bool) returns (ok: bool)
      requires Valid()
      requires Sound(disk.(config := Some(config))) && Allowed(disk, disk.(config := Some(config)))
      modifies this
      ensures Valid() && ok == written
      ensures disk == if written then old(disk).(config := Some(config)) else old(disk)
      ensures trace == if written then old(trace) + [disk] else old(trace)
    {
      if written { Write(disk.(config := Some(config))); }
      return written;
    }

    /** Creates the store file; a failing constructor may leave it behind. */
    method CreateDatabase(key: string, o: Outcome) returns (ok: bool)
      requires Valid() && disk.config.None? && disk.database.None?
      modifies this
      ensures Valid() && old(trace) <= trace && ok == (o == Done)
      ensures disk == if o != Failed then old(disk).(database := Some(Database(key, map[]))) else old(disk)
    {
      if o != Failed { Write(disk.(database := Some(Database(key, map[])))); }
      return o == Done;
    }

    /** Unlinks the store and its side files; the store may go although a side file stays. */
    method RemoveDatabase(o: Outcome) returns (ok: bool)
      requires Valid() && disk.config.None?
      modifies this
      ensures Valid() && old(trace) <= trace && ok == (o == Done)
      ensures disk == if o != Failed then old(disk).(database := None) else old(disk)
    {
      if o != Failed { Write(disk.(database := None)); }
      return o == Done;
    }

    method LoadCoreSecrets(prefix: string, loaded: bool) returns (key: Option<Secret>)
      requires Valid()
      ensures key.Some? <==>
        && loaded && Account(DatabaseKey, prefix) in disk.secrets
        && Account(ContextCapability, prefix) in disk.secrets && Account(HostTransport, prefix) in disk.secrets
      ensures key.Some? ==> key.value == disk.secrets[Account(DatabaseKey, prefix)]
    {
      if !loaded { return None; }
      if Account(DatabaseKey, prefix) !in disk.secrets { return None; }
      if Account(ContextCapability, prefix) !in disk.secrets { return None; }
      if Account(HostTransport, prefix) !in disk.secrets { return None; }
      return Some(disk.secrets[Account(DatabaseKey, prefix)]);
    }

    /** Deletes what was written, whether or not single deletions fail. */
    method DeleteAll(accounts: seq<Account>, deletes: Account -> Outcome)
      requires Valid()
      requires disk.config.None?
               || (Paired(disk).None? && forall i | 0 <= i < |accounts| :: accounts[i].kind.HostRelayAccess?)
      modifies this
      ensures Valid() && old(trace) <= trace
      ensures disk == old(disk).(secrets := old(disk).secrets - Deleted(accounts, deletes))
    {
      for n := 0 to |accounts|
        invariant Valid() && old(trace) <= trace
        invariant disk == old(disk).(secrets := old(disk).secrets - Deleted(accounts[..n], deletes))
      {
        ghost var before := Deleted(accounts[..n], deletes);
        assert accounts[..n + 1] == accounts[..n] + [accounts[n]];
        assert Deleted(accounts[..n + 1], deletes)
            == if deletes(accounts[n]) != Failed then before + {accounts[n]} else before;
        var ok := DeleteSecret(accounts[n], deletes(accounts[n]));
        assert disk.secrets == old(disk).secrets - Deleted(accounts[..n + 1], deletes);
      }
      assert accounts[..|accounts|] == accounts;
    }

    /** Stores the secrets in order and tells which were stored for sure. */
    method PutAll(secrets: seq<(Account, Secret)>, puts: Account -> Outcome) returns (ok: bool, written: seq<Account>)
      requires Valid()
      requires disk.config.None?
               || (Paired(disk).None? && forall i | 0 <= i < |secrets| :: secrets[i].0.kind.HostRelayAccess?)
      modifies this
      ensures Valid() && old(trace) <= trace
      ensures disk == old(disk).(secrets := Put(old(disk).secrets, secrets, Landed(secrets, puts)))
      ensures written == Accounts(secrets)[..Stored(secrets, puts)]
      ensures ok == (Stored(secrets, puts) == |secrets|)
    {
      written := [];
      for n := 0 to |secrets|
        invariant Valid() && old(trace) <= trace
        invariant disk == old(disk).(secrets := Put(old(disk).secrets, secrets, n))
        invariant written == Accounts(secrets)[..n] && n <= Stored(secrets, puts)
      {
        ok := PutSecret(secrets[n].0, secrets[n].1, puts(secrets[n].0));
        if !ok { return; }
        written := written + [secrets[n].0];
      }
      return true, written;
    }

    method RegisterDevice(id: string) returns (ok: bool)
      requires Valid() && Paired(disk).None? && disk.database.Some?
      modifies this
      ensures Valid() && old(trace) <= trace && ok == CanRegister(old(disk), id)
      ensures disk == if !ok then old(disk) else old(disk).(database := Some(old(disk).database.value.(
        devices := old(disk).database.value.devices[id := Device(true, true)])))
    {
      var database := disk.database.value;
      if id in database.devices && database.devices[id].active { return false; }
      Write(disk.(database := Some(database.(devices := database.devices[id := Device(true, true)]))));
      return true;
    }

    method RevokeDevice(id: string, withdrawn: bool) returns (ok: bool)
      requires Valid() && disk.database.Some? && id in disk.database.value.devices
      requires Paired(disk).Some? ==> Paired(disk).value.revocationPending
      modifies this
      ensures Valid() && ok == withdrawn
      ensures trace == if withdrawn then old(trace) + [disk] else old(trace)
      ensures disk == old(disk).(database := disk.database)
      ensures Withdraws(old(disk).database, disk.database, if ok then {id} else {}) && Kept(old(disk), disk)
      ensures forall other :: ActiveMobile(disk, other) <==> ActiveMobile(old(disk), other) && (ok ==> other != id)
    {
      var database := disk.database.value;
      if withdrawn {
        var withdrawnDevice := database.devices[id].(active := false);
        Write(disk.(database := Some(database.(devices := database.devices[id := withdrawnDevice]))));
      }
      return withdrawn;
    }

    /** The relay revokes a route for its own host token until that ends; its answer may be lost. */
    method RevokeRelayRoute(routingId: string, token: Secret, now: int, answer: Outcome) returns (ok: bool)
      requires Valid()
      modifies this
      ensures Valid() && old(trace) <= trace && ok == (Opens(token, routingId, now) && answer == Done)
      ensures disk == if Opens(token, routingId, now) && answer != Failed
                      then old(disk).(revoked := old(disk).revoked + {routingId}) else old(disk)
      ensures !Opens(token, routingId, now) ==> trace == old(trace)
    {
      if !token.RelayAccess? { return false; }
      if token.route.expiresAt <= now { return false; }
      if token.route.routingId != routingId { return false; }
      if answer != Failed { Write(disk.(revoked := disk.revoked + {routingId})); }
      return answer == Done;
    }

    // ----- setup -----

    /** The guarded part of initializeLocalRuntime; a failure deletes the secrets stored for sure, then the store. */
    method StoreConfig(prefix: string, key: string, o: Calls) returns (ok: bool)
      requires Valid() && disk.config.None? && disk.database == Some(Database(key, map[]))
      modifies this
      ensures Valid() && old(trace) <= trace
      ensures ok <==> o.written && forall a | a in CoreAccounts(prefix) :: o.puts(a) == Done
      ensures var secrets := CoreSecrets(prefix, key);
        var stored := Put(old(disk).secrets, secrets, Landed(secrets, o.puts));
        disk == if ok then old(disk).(secrets := stored, config := Some(Config(prefix, None)))
                else old(disk).(
                  secrets := stored - Deleted(Accounts(secrets)[..Stored(secrets, o.puts)], o.deletes),
                  database := if o.removed == Failed then old(disk).database else None)
    {
      StoredConfigIsSound(disk, prefix, key, o.puts);
      var stored, written := PutAll(CoreSecrets(prefix, key), o.puts);
      if stored {
        ok := WritePrivateConfig(Config(prefix, None), o.written);
        if ok { return true; }
      }
      DeleteAll(written, o.deletes);
      var removed := RemoveDatabase(o.removed);
      return false;
    }

    /** `prefix` and `key` are freshly drawn. */
    method InitializeLocalRuntime(prefix: string, key: string, o: Calls) returns (r: Result<Config, SetupError>)
      requires Valid()
      modifies this
      ensures Valid() && old(trace) <= trace
      ensures r.Ok? <==>
        if old(disk).config.Some? then o.loaded
        else old(disk).database.None? && o.created == Done && o.written
             && forall a | a in CoreAccounts(prefix) :: o.puts(a) == Done
      ensures r.Ok? ==> disk.config == Some(r.value)
      ensures old(disk).config.Some? ==> disk == old(disk) && trace == old(trace)
      ensures old(disk).config.None? && r.Ok? ==>
        r.value == Config(prefix, None) && disk.database == Some(Database(key, map[]))
      ensures r.Err? ==> disk.config == old(disk).config
      ensures r == Err(UnconfiguredDatabase) <==> old(disk).config.None? && old(disk).database.Some?
      ensures r == Err(UnconfiguredDatabase) ==> disk == old(disk) && trace == old(trace)
    {
      if disk.config.Some? {
        var loaded := LoadCoreSecrets(disk.config.value.prefix, o.loaded);
        return if loaded.Some? then Ok(disk.config.value) else Err(SecretsMissing);
      }
      if disk.database.Some? { return Err(UnconfiguredDatabase); }
      var created := CreateDatabase(key, o.created);
      if !created { return Err(Fault); }
      var stored := StoreConfig(prefix, key, o);
      return if stored then Ok(Config(prefix, None)) else Err(Fault);
    }

    /** The pairing conversation; a phone may be registered although it fails afterwards. */
    method AcceptPhone(id: string, c: Conversation) returns (ok: bool)
      requires Valid() && Paired(disk).None? && disk.database.Some?
      modifies this
      ensures Valid() && old(trace) <= trace && ok == (c.reached && CanRegister(old(disk), id) && c.finished)
      ensures disk == old(disk).(database := disk.database) && disk.database.Some?
      ensures disk.database.value.key == old(disk).database.value.key
      ensures forall other :: ActiveMobile(disk, other) <==>
        ActiveMobile(old(disk), other) || (other == id && c.reached && CanRegister(old(disk), id))
    {
      if !c.reached { return false; }
      ok := RegisterDevice(id);
      return ok && c.finished;
    }

    /**
     * The part of bootstrapPairing after the phone was accepted: secrets first, then the config that needs them. After
     * a failure each secret stored for sure is deleted again.
     */
    method StorePairing(prefix: string, key: string, route: Route, o: Calls) returns (ok: bool)
      requires Valid() && Paired(disk).None? && disk.database.Some? && disk.database.value.key == key
      requires disk.config.Some? ==> disk.config.value.prefix == prefix
      modifies this
      ensures Valid() && old(trace) <= trace
      ensures var secrets := PairingSecrets(old(disk).config.None?, prefix, key, route);
        var stored := Put(old(disk).secrets, secrets, Landed(secrets, o.puts));
        && ok == (Stored(secrets, o.puts) == |secrets| && o.written)
        && disk == if ok
          then old(disk).(secrets := stored, config := Some(Config(prefix, Some(Pairing(route.routingId, false)))))
          else old(disk).(secrets := stored - Deleted(Accounts(secrets)[..Stored(secrets, o.puts)], o.deletes))
    {
      var secrets := PairingSecrets(disk.config.None?, prefix, key, route);
      var stored, written := PutAll(secrets, o.puts);
      if !stored {
        DeleteAll(written, o.deletes);
        return false;
      }
      StoredPairingIsSound(old(disk), prefix, key, route);
      ok := WritePrivateConfig(Config(prefix, Some(Pairing(route.routingId, false))), o.written);
      if !ok { DeleteAll(written, o.deletes); }
    }

    /**
     * The part of bootstrapPairing before the conversation: the secrets of the config, or a new store with a new key.
     */
    method OpenStore(freshPrefix: string, freshKey: string, c: Conversation, o: Calls)
      returns (r: Result<(string, string), SetupError>)
      requires Valid() && Paired(disk).None?
      modifies this
      ensures Valid() && old(trace) <= trace && (r.Ok? <==> Converses(old(disk), c, o))
      ensures r.Ok? ==>
        && disk.database.Some? && disk.database.value.key == r.value.1
        && r.value.0 == if old(disk).config.Some? then old(disk).config.value.prefix else freshPrefix
      ensures disk == if old(disk).config.None? && old(disk).database.None? && c.provisioned && o.created != Failed
                      then old(disk).(database := Some(Database(freshKey, map[]))) else old(disk)
      ensures r == Err(UnconfiguredDatabase) <==> c.provisioned && old(disk).config.None? && old(disk).database.Some?
      ensures r == Err(UnconfiguredDatabase) ==> trace == old(trace)
      ensures r != Err(AlreadyPaired)
    {
      if !c.provisioned { return Err(Fault); }
      if disk.config.Some? {
        var prefix := disk.config.value.prefix;
        var loaded := LoadCoreSecrets(prefix, o.loaded);
        return if loaded.Some? then Ok((prefix, loaded.value.text)) else Err(SecretsMissing);
      }
      if disk.database.Some? { return Err(UnconfiguredDatabase); }
      var created := CreateDatabase(freshKey, o.created);
      return if created then Ok((freshPrefix, freshKey)) else Err(Fault);
    }

    /** The guarded part of bootstrapPairing; a failure removes the store where there was no config. */
    method PairAndStore(prefix: string, key: string, route: Route, id: string, c: Conversation, o: Calls)
      returns (ok: bool)
      requires Valid() && Paired(disk).None? && disk.database.Some? && disk.database.value.key == key
      requires disk.config.Some? ==> disk.config.value.prefix == prefix
      modifies this
      ensures Valid() && old(trace) <= trace
      ensures ok <==>
        && c.reached && CanRegister(old(disk), id) && c.finished && o.written
        && forall a | a in PairingAccounts(old(disk).config.None?, prefix) :: o.puts(a) == Done
      ensures ok ==>
        && disk.config == Some(Config(prefix, Some(Pairing(route.routingId, false))))
        && ActiveMobile(disk, id) && Expiry(disk) == route.expiresAt
        && forall other :: ActiveMobile(disk, other) <==> ActiveMobile(old(disk), other) || other == id
      ensures !ok ==> disk.config == old(disk).config
      ensures !ok ==> forall other :: ActiveMobile(disk, other) <==>
        && (old(disk).config.Some? || o.removed == Failed)
        && (ActiveMobile(old(disk), other) || (other == id && c.reached && CanRegister(old(disk), id)))
    {
      ok := AcceptPhone(id, c);
      label accepted:
      if ok {
        StoresEvery(disk.config.None?, prefix, key, route, o.puts);
        StoredPairingIsSound(disk, prefix, key, route);
        ok := StorePairing(prefix, key, route, o);
        assert forall other :: ActiveMobile(disk, other) <==> ActiveMobile(old@accepted(disk), other);
      }
      if !ok && disk.config.None? { var removed := RemoveDatabase(o.removed); }
    }

    /** `route` is what the relay provisions, `id` the phone that pairs; prefix and key are freshly drawn. */
    method BootstrapPairing(freshPrefix: string, freshKey: string, route: Route, id: string, c: Conversation, o: Calls)
      returns (r: Result<Config, SetupError>)
      requires Valid()
      modifies this
      ensures Valid() && old(trace) <= trace
      ensures r.Ok? <==>
        && Registers(old(disk), id, c, o) && c.finished && o.written
        && var prefix := if old(disk).config.Some? then old(disk).config.value.prefix else freshPrefix;
           forall a | a in PairingAccounts(old(disk).config.None?, prefix) :: o.puts(a) == Done
      ensures r.Ok? ==>
        && disk.config == Some(r.value) && r.value.pairing == Some(Pairing(route.routingId, false))
        && ActiveMobile(disk, id) && Expiry(disk) == route.expiresAt
        && (forall other :: ActiveMobile(disk, other) <==> ActiveMobile(old(disk), other) || other == id)
        && r.value.prefix == if old(disk).config.Some? then old(disk).config.value.prefix else freshPrefix
      ensures r.Err? ==> disk.config == old(disk).config
      ensures r.Err? ==> forall other :: ActiveMobile(disk, other) <==>
        || ActiveMobile(old(disk), other)
        || (other == id && Registers(old(disk), id, c, o) && (old(disk).config.Some? || o.removed == Failed))
      ensures r == Err(AlreadyPaired) <==> Paired(old(disk)).Some?
      ensures r == Err(UnconfiguredDatabase) <==>
        c.provisioned && old(disk).config.None? && old(disk).database.Some?
      ensures r == Err(AlreadyPaired) || r == Err(UnconfiguredDatabase) ==> disk == old(disk) && trace == old(trace)
    {
      if Paired(disk).Some? { return Err(AlreadyPaired); }
      var store := OpenStore(freshPrefix, freshKey, c, o);
      assert forall other :: ActiveMobile(disk, other) <==> ActiveMobile(old(disk), other);
      if store.Err? { return Err(store.error); }
      assert CanRegister(disk, id) == CanRegister(old(disk), id);
      var (prefix, key) := store.value;
      var done := PairAndStore(prefix, key, route, id, c, o);
      return if done then Ok(Config(prefix, Some(Pairing(route.routingId, false)))) else Err(Fault);
    }

    // ----- removal -----

    /**
     * What one process at a time guarantees about the config it holds in memory: only the tombstone may be newer on
     * disk, and the pairing may already be gone once the memory knows of the tombstone.
     */
    predicate Current(config: Config)
      reads this
    {
      && disk.config.Some? && disk.config.value.prefix == config.prefix
      && (config.pairing.Some? ==>
            if Paired(disk).Some? then
              && Paired(disk).value.routingId == config.pairing.value.routingId
              && (config.pairing.value.revocationPending ==> Paired(disk).value.revocationPending)
            else config.pairing.value.revocationPending)
    }

    method RevokePhones(withdrawn: string -> bool) returns (ok: bool, revoked: set<string>)
      requires Valid() && (Paired(disk).Some? ==> Paired(disk).value.revocationPending)
      modifies this
      ensures Valid() && old(trace) <= trace && disk == old(disk).(database := disk.database)
      ensures forall i | |old(trace)| <= i < |trace| :: Kept(old(disk), trace[i])
      ensures ok <==> forall id | id in ActiveMobiles(old(disk)) :: withdrawn(id)
      ensures ok ==> NoActiveMobile(disk) && revoked == ActiveMobiles(old(disk))
      ensures ok ==> Withdraws(old(disk).database, disk.database, revoked)
      ensures forall id | ActiveMobile(disk, id) :: ActiveMobile(old(disk), id)
    {
      if disk.database.None? { return true, {}; }
      var devices := disk.database.value.devices;
      revoked := set id | id in devices && devices[id].active && devices[id].mobileControl;
      assert revoked == ActiveMobiles(old(disk));
      hide History, Withdraws, Kept;
      var left := revoked;
      WithdrawsNone(disk.database, revoked - left);
      KeptSelf(disk);
      while left != {}
        invariant Valid() && old(trace) <= trace && disk == old(disk).(database := disk.database)
        invariant Kept(old(disk), disk) && forall i | |old(trace)| <= i < |trace| :: Kept(old(disk), trace[i])
        invariant disk.database.Some? && Withdraws(old(disk).database, disk.database, revoked - left)
        invariant left <= revoked && (forall id :: ActiveMobile(disk, id) <==> id in left)
        invariant forall id | id in revoked - left :: withdrawn(id)
      {
        var id :| id in left;
        ghost var before := disk;
        ok := RevokeDevice(id, withdrawn(id));
        KeptBoth(old(disk), before, disk);
        if !ok { return; }
        ghost var done := revoked - left;
        left := left - {id};
        assert revoked - left == done + {id};
        WithdrawsMore(old(disk).database, before.database, disk.database, done, id, revoked - left);
      }
      return true, revoked;
    }

    /** Stores the tombstone, then withdraws every phone. */
    method PreparePairingRevocation(
      config: Config, deviceId: Option<string>, tombstoned: bool, withdrawn: string -> bool)
      returns (r: Result<set<string>, SetupError>)
      requires Valid() && Current(config)
      modifies this
      ensures Valid() && Current(config) && old(trace) <= trace
      ensures forall i | |old(trace)| <= i < |trace| :: Kept(old(disk), trace[i])
      ensures disk.secrets == old(disk).secrets && disk.revoked == old(disk).revoked
      ensures Paired(disk).Some? <==> Paired(old(disk)).Some?
      ensures config.pairing.None? ==> r == Ok({}) && disk == old(disk)
      ensures config.pairing.Some? && r.Ok? ==>
        && NoActiveMobile(disk) && r.value == ActiveMobiles(old(disk))
        && Withdraws(old(disk).database, disk.database, r.value)
        && (Paired(disk).Some? ==> Paired(disk).value.revocationPending)
      ensures r == Err(NotActive) <==>
        && config.pairing.Some? && !config.pairing.value.revocationPending && deviceId.Some?
        && CanRegister(old(disk), deviceId.value)
      ensures r == Err(NotActive) ==> disk == old(disk) && trace == old(trace)
      ensures r.Err? ==> r.error == NotActive || r.error == Fault
      ensures config.pairing.Some? && r != Err(NotActive) ==>
        (r.Ok? <==> && (config.pairing.value.revocationPending || tombstoned)
                    && forall id | id in ActiveMobiles(old(disk)) :: withdrawn(id))
      ensures forall id | ActiveMobile(disk, id) :: ActiveMobile(old(disk), id)
    {
      if config.pairing.None? { return Ok({}); }
      var pairing := config.pairing.value;
      if deviceId.Some? && !pairing.revocationPending {
        if deviceId.value !in disk.database.value.devices || !disk.database.value.devices[deviceId.value].active {
          return Err(NotActive);
        }
      }
      if !pairing.revocationPending {
        var written := WritePrivateConfig(Config(config.prefix, Some(pairing.(revocationPending := true))), tombstoned);
        if !written { return Err(Fault); }
      }
      assert ActiveMobiles(disk) == ActiveMobiles(old(disk));
      var ok, revoked := RevokePhones(withdrawn);
      return if ok then Ok(revoked) else Err(Fault);
    }

    /** Revokes the route, then forgets the pairing, then the secret that was needed to revoke. */
    method CompletePairingRevocation(config: Config, a: Attempt) returns (r: Result<(), SetupError>)
      requires Valid() && disk.config.Some? && disk.config.value.prefix == config.prefix
      requires config.pairing.Some? && Paired(disk).Some? ==>
        Paired(disk).value.routingId == config.pairing.value.routingId
      modifies this
      ensures Valid() && old(trace) <= trace
      ensures config.pairing.None? ==> r == Ok(()) && disk == old(disk) && trace == old(trace)
      ensures config.pairing.Some? ==>
        var account, routingId := Account(HostRelayAccess, config.prefix), config.pairing.value.routingId;
        var opens := account in old(disk).secrets && Opens(old(disk).secrets[account], routingId, a.now);
        && (r.Ok? <==> opens && a.FaultFree())
        && (r.Ok? ==> disk == old(disk).(
                 revoked := old(disk).revoked + {routingId}, config := Some(Config(config.prefix, None)),
                 secrets := old(disk).secrets - {account}))
        && (!opens ==> disk == old(disk) && trace == old(trace))
        && (disk.config == Some(Config(config.prefix, None)) || disk.config == old(disk).config)
        && (Paired(disk).Some? ==> disk.config == old(disk).config && disk.secrets == old(disk).secrets)
      ensures Paired(old(disk)).Some? && config.pairing.Some? ==>
        && (r.Ok? <==> a.FaultFree() && a.now < Expiry(old(disk)))
        && (Expiry(old(disk)) <= a.now ==> disk == old(disk) && trace == old(trace))
      ensures disk.database == old(disk).database
    {
      if config.pairing.None? { return Ok(()); }
      var account := Account(HostRelayAccess, config.prefix);
      if !a.readable { return Err(Fault); }
      if account !in disk.secrets { return Err(SecretsMissing); }
      var ok := RevokeRelayRoute(config.pairing.value.routingId, disk.secrets[account], a.now, a.answer);
      if !ok { return Err(Fault); }
      ok := WritePrivateConfig(Config(config.prefix, None), a.forgotten);
      if !ok { return Err(Fault); }
      ok := DeleteSecret(account, a.deleted);
      return if ok then Ok(()) else Err(Fault);
    }

    /** The whole removal: with a stored pairing it succeeds exactly without faults and before the host token ends. */
    method RevokePairing(deviceId: Option<string>, tombstoned: bool, withdrawn: string -> bool, a: Attempt)
      returns (r: Result<set<string>, SetupError>)
      requires Valid()
      modifies this
      ensures Valid() && old(trace) <= trace
      ensures r == Err(NotConfigured) <==> old(disk).config.None?
      ensures r == Err(NotActive) <==>
        && Paired(old(disk)).Some? && !Paired(old(disk)).value.revocationPending && deviceId.Some?
        && CanRegister(old(disk), deviceId.value)
      ensures Paired(old(disk)).Some? && r != Err(NotActive) ==>
        (r.Ok? <==> && (Paired(old(disk)).value.revocationPending || tombstoned)
                    && (forall id | id in ActiveMobiles(old(disk)) :: withdrawn(id))
                    && a.FaultFree() && a.now < Expiry(old(disk)))
      ensures r.Ok? && Paired(old(disk)).Some? ==>
        && disk.config == Some(Config(old(disk).config.value.prefix, None)) && NoActiveMobile(disk)
        && Paired(old(disk)).value.routingId in disk.revoked && r.value == ActiveMobiles(old(disk))
        && Withdraws(old(disk).database, disk.database, r.value)
      ensures
        && Paired(old(disk)).Some? && r != Err(NotActive)
        && (Paired(old(disk)).value.revocationPending || tombstoned)
        && (forall id | id in ActiveMobiles(old(disk)) :: withdrawn(id)) ==>
          NoActiveMobile(disk) && (Paired(disk).Some? ==> Paired(disk).value.revocationPending)
      ensures Paired(old(disk)).Some? && Expiry(old(disk)) <= a.now ==>
        Kept(old(disk), disk) && forall i | |old(trace)| <= i < |trace| :: Kept(old(disk), trace[i])
    {
      if disk.config.None? { return Err(NotConfigured); }
      var config := disk.config.value;
      r := PreparePairingRevocation(config, deviceId, tombstoned, withdrawn);
      if r.Err? { return; }
      ghost var prepared := disk;
      var completed := CompletePairingRevocation(config, a);
      assert forall id :: ActiveMobile(disk, id) <==> ActiveMobile(prepared, id);
      if completed.Err? { return Err(Fault); }
    }

    // ----- restart -----

    /** The daemon up to the moment its API starts. */
    method StartDaemon(loaded: bool, opens: bool, withdrawn: string -> bool) returns (r: Result<Config, SetupError>)
      requires Valid()
      modifies this
      ensures Valid() && old(trace) <= trace
      ensures forall i | |old(trace)| <= i < |trace| :: Kept(old(disk), trace[i])
      ensures disk == old(disk).(database := disk.database)
      ensures r.Ok? ==> disk.config == Some(r.value)
      ensures r.Ok? && r.value.pairing.Some? && r.value.pairing.value.revocationPending ==> NoActiveMobile(disk)
      ensures r.Ok? <==>
        && old(disk).config.Some? && loaded && opens
        && (Paired(old(disk)).Some? && Paired(old(disk)).value.revocationPending ==>
              forall id | id in ActiveMobiles(old(disk)) :: withdrawn(id))
    {
      if disk.config.None? { return Err(NotConfigured); }
      var config := disk.config.value;
      var key := LoadCoreSecrets(config.prefix, loaded);
      if key.None? { return Err(SecretsMissing); }
      if !opens { return Err(Fault); }
      if config.pairing.Some? && config.pairing.value.revocationPending {
        var resumed := PreparePairingRevocation(config, None, true, withdrawn);
        if resumed.Err? { return Err(Fault); }
      }
      return Ok(config);
    }

    /** The running daemon finishes a removal: up to three attempts before it waits and tries again. */
    method FinishPairingRevocation(config: Config, attempts: nat -> Attempt) returns (done: bool)
      requires Valid() && Current(config) && (config.pairing.Some? ==> config.pairing.value.revocationPending)
      modifies this
      ensures Valid() && Current(config) && old(trace) <= trace
      ensures disk.database == old(disk).database
      ensures done && config.pairing.Some? ==> Paired(disk).None? && config.pairing.value.routingId in disk.revoked
      ensures Paired(old(disk)).Some? && config.pairing.Some? ==>
        && ((exists n | 1 <= n <= 3 :: attempts(n).FaultFree() && attempts(n).now < Expiry(old(disk))) ==>
             Paired(disk).None?)
        && ((forall n | 1 <= n <= 3 :: Expiry(old(disk)) <= attempts(n).now) ==>
              !done && disk == old(disk) && trace == old(trace))
      ensures config.pairing.None? ==> disk == old(disk) && trace == old(trace)
    {
      if config.pairing.None? { return true; }
      for n := 1 to 4
        invariant Valid() && Current(config) && old(trace) <= trace
        invariant disk.database == old(disk).database
        invariant Paired(disk).Some? ==>
          && Paired(old(disk)).Some? && disk.secrets == old(disk).secrets
          && forall m | 1 <= m < n :: !(attempts(m).FaultFree() && attempts(m).now < Expiry(old(disk)))
        invariant Paired(old(disk)).Some? && (forall m | 1 <= m < n :: Expiry(old(disk)) <= attempts(m).now) ==>
          disk == old(disk) && trace == old(trace)
      {
        var r := CompletePairingRevocation(config, attempts(n));
        if r.Ok? { return true; }
      }
      return false;
    }

    /** A crash after any durable write: later writes never happened. */
    method Crash(k: nat)
      requires Valid() && k < |trace|
      modifies this
      ensures Valid() && trace == old(trace)[..k + 1] && disk == old(trace)[k]
    {
      HistoryCut(trace, k);
      disk := trace[k];
      trace := trace[..k + 1];
    }
  }
}
