/** One factory controller through its whole life: claiming, equipment, commissioning, rotation,
    revocation, release and reset. Transactions that span a broker call are split where they
    commit, and may be cut short anywhere. */
module Access {
  import opened ControllerBroker
  import opened Options

  const LIMIT: nat := 2147483647

  datatype Status = Ready | Claimed | Releasing | Quarantined

  datatype Lifecycle = Provisioning | Active | Maintenance | Retired

  datatype Mode = ReadOnly | BenchWithoutMotor | ExtendedTest

  /** What the firmware of the board says it supports. */
  datatype Capability = CanRead | CanBench | CanFull

  datatype Grant = Grant(mode: Mode, hash: nat)

  datatype Controller = Controller(
    status: Status, generation: nat, device: Option<nat>, revision: nat, grant: Option<Grant>, capability: Capability,
    accessRevoked: bool, credentialRevision: nat)

  /** One equipment configuration; the hash stands for the whole manifest. */
  datatype Config = Config(revision: nat, drive: nat, binding: nat, generation: nat, hash: nat)

  /** A device of a customer: its usable drives, its configurations, and whether control is
      switched on among its capabilities. */
  datatype Device = Device(lifecycle: Lifecycle, drives: set<nat>, configs: seq<Config>, control: bool)

  /** The key of one device; its secret is known by its revision. */
  datatype Credential = Credential(revision: nat, applied: nat, revoked: bool)

  datatype Records = Records(row: Controller, devices: map<nat, Device>, credentials: map<nat, Credential>,
    broker: Broker)

  // ---------------------------------------------------------------- parts of the transactions

  /** Ends the current control grant; None at the end of the number range. */
  function Invalidate(c: Controller): Option<Controller>
  {
    if c.revision >= LIMIT then None else Some(c.(revision := c.revision + 1, grant := None))
  }

  predicate Supports(capability: Capability, mode: Mode)
  {
    match mode
    case ReadOnly => true
    case BenchWithoutMotor => !capability.CanRead?
    case ExtendedTest => capability.CanFull?
  }

  function SwitchOff(devices: map<nat, Device>, d: nat): map<nat, Device>
  {
    if d in devices then devices[d := devices[d].(control := false)] else devices
  }

  /** A new key for the device, to be applied at the broker. */
  function Issue(r: Records, d: nat): Records
  {
    var n := r.row.credentialRevision + 1;
    var applied := if d in r.credentials then r.credentials[d].applied else 0;
    r.(row := r.row.(credentialRevision := n, accessRevoked := false),
      credentials := r.credentials[d := Credential(n, applied, false)])
  }

  function Revoke(r: Records): Records
  {
    var denied := r.row.(accessRevoked := true);
    if r.row.device.Some? && r.row.device.value in r.credentials && !r.credentials[r.row.device.value].revoked then
      var d, n := r.row.device.value, r.row.credentialRevision + 1;
      r.(row := denied.(credentialRevision := n),
        credentials := r.credentials[d := r.credentials[d].(revision := n, revoked := true)])
    else r.(row := denied)
  }

  /** Brings the broker up to date with one key; `true` if nothing is left to do. */
  function Synchronize(r: Records, d: nat, budget: nat, lost: bool): (Records, bool)
  {
    if d !in r.credentials || r.credentials[d].applied == r.credentials[d].revision then (r, true)
    else
      var c := r.credentials[d];
      var (broker, confirmed) := Applied(r.broker, d, c.revision, c.revoked, budget, lost);
      (r.(broker := broker, credentials := if confirmed then r.credentials[d := c.(applied := c.revision)]
        else r.credentials), confirmed)
  }

  predicate CurrentBinding(r: Records, d: nat)
  {
    d in r.devices && !r.devices[d].lifecycle.Retired? && r.row.device == Some(d) && r.row.status.Claimed?
      && !r.row.accessRevoked
  }

  function LastRevision(configs: seq<Config>): nat { if configs == [] then 0 else configs[|configs| - 1].revision }

  /** Hashing is injective, so a manifest that never existed has a hash never seen. */
  predicate HashIsNew(devices: map<nat, Device>, hash: nat)
  {
    forall d | d in devices :: forall i | 0 <= i < |devices[d].configs| :: devices[d].configs[i].hash != hash
  }

  // ---------------------------------------------------------------- the transactions; None is a rollback

  function Claim(r: Records, d: nat): Option<Records>
  {
    if r.row.status.Ready? && d !in r.devices
    then Some(r.(row := r.row.(device := Some(d), status := Claimed),
      devices := r.devices[d := Device(Provisioning, {}, [], false)]))
    else None
  }

  function AddDrive(r: Records, d: nat, drive: nat, acceptable: bool): Option<Records>
  {
    if CurrentBinding(r, d) && acceptable
    then Some(r.(devices := r.devices[d := r.devices[d].(drives := r.devices[d].drives + {drive})]))
    else None
  }

  /** `acceptable` stands for the checks of the profile, the bus, the limits and the motor. */
  datatype Setup = Setup(expected: nat, drive: nat, binding: nat, hash: nat, acceptable: bool, stopped: bool)

  function NextConfig(configs: seq<Config>, s: Setup): Config
  {
    if configs == [] then Config(s.expected + 1, s.drive, s.binding, 1, s.hash)
    else
      var last := configs[|configs| - 1];
      if last.drive != s.drive then Config(s.expected + 1, s.drive, s.binding, last.generation + 1, s.hash)
      else Config(s.expected + 1, s.drive, last.binding, last.generation, s.hash)
  }

  function Configure(r: Records, d: nat, s: Setup): Option<Records>
  {
    if !CurrentBinding(r, d) || s.expected >= LIMIT || s.expected != LastRevision(r.devices[d].configs)
       || s.drive !in r.devices[d].drives || !s.acceptable || !HashIsNew(r.devices, s.hash) then None
    else
      var device := r.devices[d];
      var initial := device.configs == [] && device.lifecycle.Provisioning?;
      if !initial && !device.lifecycle.Maintenance? && !s.stopped then None
      else
        match Invalidate(r.row)
        case None => None
        case Some(row) =>
          var configured := device.(configs := device.configs + [NextConfig(device.configs, s)], control := false,
            lifecycle := Provisioning);
          Some(r.(row := row, devices := r.devices[d := configured]))
  }

  function Replace(r: Records, d: nat, expected: nat, was: nat, becomes: nat, acceptable: bool,
      stopped: bool): Option<Records>
  {
    if !CurrentBinding(r, d) || expected != LastRevision(r.devices[d].configs) || was !in r.devices[d].drives
      || !acceptable || !stopped
    then None
    else
      match Invalidate(r.row)
      case None => None
      case Some(row) =>
        var device := r.devices[d];
        Some(r.(row := row,
                devices := r.devices[d := device.(drives := device.drives - {was} + {becomes}, lifecycle := Maintenance,
                  control := false)]))
  }

  /** `verified` says that the controller freshly reported exactly this configuration. */
  datatype Approval = Approval(expected: nat, mode: Mode, verified: bool, stopped: bool, motor: bool)

  function Commission(r: Records, d: nat, a: Approval): Option<Records>
  {
    if !CurrentBinding(r, d) || !Supports(r.row.capability, a.mode) then None
    else
      var device := r.devices[d];
      if device.configs == [] || LastRevision(device.configs) != a.expected || !a.verified
        || device.lifecycle.Maintenance? || !a.stopped
         || (a.mode.ExtendedTest? && !a.motor) then None
      else
        match Invalidate(r.row)
        case None => None
        case Some(row) =>
          Some(r.(row := row.(grant := Some(Grant(a.mode, device.configs[|device.configs| - 1].hash))),
                  devices := r.devices[d := device.(control := !a.mode.ReadOnly?, lifecycle := Active)]))
  }

  function RecordCapability(r: Records, capability: Capability): Option<Records>
  {
    var row := r.row.(capability := capability);
    if row.device.Some? && row.grant.Some? && !Supports(capability, row.grant.value.mode) then
      match Invalidate(row)
      case None => None
      case Some(ended) => Some(r.(row := ended, devices := SwitchOff(r.devices, row.device.value)))
    else Some(r.(row := row))
  }

  datatype Greeting = Rejected | SaysRevoked | WrongNetwork | SaysWaiting | Proceeds(device: nat)

  /** The first part of a bootstrap request, up to the commit before the broker call. */
  function Greet(r: Records, capability: Capability, sameNetwork: bool): (Records, Greeting)
  {
    match RecordCapability(r, capability)
    case None => (r, Rejected)
    case Some(s) =>
      if s.row.status.Quarantined? || s.row.status.Releasing? || s.row.accessRevoked then (s, SaysRevoked)
      else if !sameNetwork then (s, WrongNetwork)
      else if s.row.status.Ready? || s.row.device.None? then (s, SaysWaiting)
      else
        var d := s.row.device.value;
        (if d in s.credentials then s else Issue(s, d), Proceeds(d))
  }

  /** What a controller is told once it is configured. */
  datatype Reply = Reply(commissioned: bool, mode: Mode, hash: Option<nat>, revision: nat, key: nat)

  /** The grant in force: only a commissioned current configuration of an active device. */
  function RuntimeGrant(row: Controller, device: Device, config: Option<Config>): (bool, Mode)
  {
    if config.None? || row.grant.None? || !device.lifecycle.Active? || row.accessRevoked || !row.status.Claimed?
      || row.revision < 1
       || config.value.hash != row.grant.value.hash then (false, ReadOnly)
    else (true, row.grant.value.mode)
  }

  function OfferedConfig(device: Device): Option<Config>
  {
    if device.configs == [] || device.lifecycle.Maintenance? || device.lifecycle.Retired? then None
    else Some(device.configs[|device.configs| - 1])
  }

  /** Ends a grant that no longer fits the configuration or the capabilities of the device. */
  function Recheck(r: Records, d: nat): Option<Records>
    requires d in r.devices
  {
    var config := OfferedConfig(r.devices[d]);
    var outdated := r.row.grant.Some? && (config.None? || config.value.hash != r.row.grant.value.hash);
    if outdated then
      match Invalidate(r.row)
      case None => None
      case Some(row) => Some(r.(row := row, devices := SwitchOff(r.devices, d)))
    else if r.row.grant.Some? && !r.row.grant.value.mode.ReadOnly? && !r.devices[d].control then
      match Invalidate(r.row)
      case None => None
      case Some(row) => Some(r.(row := row))
    else Some(r)
  }

  /** The second part, after the broker call; None is an error without effect. */
  function Answer(r: Records, d: nat, host: bool): Option<(Records, Option<Reply>)>
  {
    if !r.row.status.Claimed? || r.row.accessRevoked || r.row.device != Some(d) then Some((r, None))
    else if d !in r.credentials || d !in r.devices || r.credentials[d].revoked
      || r.credentials[d].applied != r.credentials[d].revision then None
    else
      match Recheck(r, d)
      case None => None
      case Some(s) =>
        if !host then None
        else
          var config := OfferedConfig(s.devices[d]);
          var (commissioned, mode) := RuntimeGrant(s.row, s.devices[d], config);
          var hash := if config.Some? then Some(config.value.hash) else None;
          Some((s, Some(Reply(commissioned, mode, hash, s.row.revision, s.credentials[d].revision))))
  }

  datatype Operation = Rotate | RevokeAccess | Release

  datatype Request = Request(operation: Operation, generation: nat, key: nat, stopped: bool, hash: nat)

  /** A new revision of the same configuration, to be confirmed on site again. */
  function Renew(r: Records, d: nat, hash: nat): Option<Records>
  {
    if d !in r.devices then None
    else if r.devices[d].configs == [] then Some(r)
    else
      var last := r.devices[d].configs[|r.devices[d].configs| - 1];
      if last.revision >= LIMIT || !HashIsNew(r.devices, hash) then None
      else
        var next := last.(revision := last.revision + 1, hash := hash);
        Some(r.(devices := r.devices[d := r.devices[d].(configs := r.devices[d].configs + [next])]))
  }

  /** The first transaction of rotate, revoke and release. */
  function Operate(r: Records, q: Request): Option<Records>
  {
    if r.row.device.None? || r.row.generation != q.generation || !(r.row.status.Claimed? || r.row.status.Releasing?)
       || r.row.credentialRevision != q.key || (r.row.status.Releasing? && !q.operation.Release?) then None
    else if !r.row.status.Releasing? && (q.operation.Release? || (q.operation.Rotate? && !r.row.accessRevoked))
      && !q.stopped then None
    else
      var d := r.row.device.value;
      match Invalidate(r.row)
      case None => None
      case Some(row) =>
        if q.operation.Rotate? then
          match Renew(r.(row := row), d, q.hash)
          case None => None
          case Some(s) => Some(Issue(s, d))
        else
          var s := Revoke(r.(row := row));
          var t := s.(devices := SwitchOff(s.devices, d));
          if q.operation.RevokeAccess? then Some(t)
          else
            Some(t.(row := t.row.(status := Releasing),
                    devices := if d in t.devices then t.devices[d := t.devices[d].(lifecycle := Retired)]
                      else t.devices))
  }

  /** The second transaction of a release. */
  function FinishRelease(r: Records, d: nat, generation: nat): Option<Records>
  {
    if r.row.generation != generation || !r.row.status.Releasing? || r.row.device != Some(d) then None
    else Some(r.(row := r.row.(generation := generation + 1, device := None, status := Ready, accessRevoked := false)))
  }

  predicate MayReset(r: Records, generation: nat)
  {
    r.row.generation == generation && (r.row.status.Ready? || r.row.status.Quarantined?)
  }

  /** The first transaction of a factory reset. */
  function StartReset(r: Records, generation: nat): Option<Records>
  {
    if !MayReset(r, generation) then None
    else if r.row.device.None? then Some(r)
    else
      var s, d := Revoke(r), r.row.device.value;
      Some(s.(devices := if d in s.devices then s.devices[d := s.devices[d].(lifecycle := Retired, control := false)]
        else s.devices))
  }

  /** The second one: it does not look again at the device. */
  function FinishReset(r: Records, generation: nat): Option<Records>
  {
    if !MayReset(r, generation) then None
    else
      match Invalidate(r.row.(generation := generation + 1, device := None, status := Ready, accessRevoked := false))
      case None => None
      case Some(row) => Some(r.(row := row.(capability := CanRead)))
  }

  function Quarantine(r: Records): Option<Records>
  {
    match Invalidate(r.row)
    case None => None
    case Some(row) =>
      var s := r.(row := row.(status := Quarantined));
      Some(if row.device.Some? then Revoke(s) else s)
  }

  // ---------------------------------------------------------------- what the records keep

  /** The device no longer belongs to the controller: it is not the claimed one. */
  predicate Former(r: Records, d: nat) { d in r.devices && !(r.row.device == Some(d) && r.row.status.Claimed?) }

  /** The broker has confirmed that the key of this device is off, or there never was one. */
  predicate ConfirmedOff(r: Records, d: nat)
  {
    d in r.credentials ==> r.credentials[d].revoked && r.credentials[d].applied == r.credentials[d].revision
  }

  /** A stored grant belongs to a claimed controller and is within what its firmware supports. */
  ghost predicate GrantOk(r: Records)
  {
    r.row.grant.Some? ==>
      r.row.status.Claimed? && r.row.device.Some? && !r.row.accessRevoked && r.row.revision > 0
      && Supports(r.row.capability, r.row.grant.value.mode)
  }

  ghost predicate PlaceOk(r: Records)
  {
    && (r.row.status.Claimed? || r.row.status.Releasing? ==> r.row.device.Some?)
    && (r.row.status.Ready? ==> r.row.device.None? && !r.row.accessRevoked)
    && (r.row.device.Some? ==> r.row.device.value in r.devices)
  }

  /** Keys of former devices are revoked. */
  ghost predicate KeysOk(r: Records)
  {
    forall d | d in r.credentials ::
      && d in r.devices && r.credentials[d].applied <= r.credentials[d].revision <= r.row.credentialRevision
      && 0 < r.credentials[d].revision && (Former(r, d) ==> r.credentials[d].revoked)
  }

  /** The broker knows only issued keys, and does what the last confirmed revision says. */
  ghost predicate BrokerOk(r: Records)
  {
    && (forall d | d in r.broker.clients ::
          d in r.credentials && r.broker.clients[d].password <= r.credentials[d].revision)
    && (forall d | d in r.credentials && r.credentials[d].applied == r.credentials[d].revision ::
          Settled(r.broker, d, r.credentials[d].revision, r.credentials[d].revoked))
  }

  /** Configuration revisions count 1, 2, 3, ... */
  ghost predicate Gapless(configs: seq<Config>) { forall i | 0 <= i < |configs| :: configs[i].revision == i + 1 }

  ghost predicate ConfigsOk(r: Records) { forall d | d in r.devices :: Gapless(r.devices[d].configs) }

  ghost predicate RecordsOk(r: Records) { GrantOk(r) && PlaceOk(r) && KeysOk(r) && BrokerOk(r) && ConfigsOk(r) }

  /** How the records may develop. */
  ghost predicate Grows(r: Records, s: Records)
  {
    && r.row.generation <= s.row.generation && r.row.credentialRevision <= s.row.credentialRevision
    && r.row.revision <= s.row.revision && (r.row.revision == s.row.revision ==> s.row.grant == r.row.grant)
    && (forall d | d in r.devices :: d in s.devices && r.devices[d].configs <= s.devices[d].configs)
    && (forall d | Former(r, d) :: Former(s, d) && (ConfirmedOff(r, d) ==> ConfirmedOff(s, d)))
    && (forall d | d in r.credentials :: d in s.credentials && r.credentials[d].revision <= s.credentials[d].revision)
  }

  lemma GrowsTransitive(r: Records, s: Records, t: Records)
    requires Grows(r, s) && Grows(s, t)
    ensures Grows(r, t)
  {
    forall d | d in r.devices ensures d in t.devices && r.devices[d].configs <= t.devices[d].configs {
      assert d in s.devices && r.devices[d].configs <= s.devices[d].configs;
    }
    forall d | d in r.credentials ensures d in t.credentials && r.credentials[d].revision <= t.credentials[d].revision {
      assert d in s.credentials && r.credentials[d].revision <= s.credentials[d].revision;
    }
  }

  lemma GrowsItself(r: Records)
    ensures Grows(r, r)
  {
  }

  /** Records that differ in the row alone, without ending what a former device has. */
  lemma RowChange(r: Records, row: Controller)
    requires RecordsOk(r)
    requires row.device == r.row.device && row.status == r.row.status && row.generation == r.row.generation
    requires row.credentialRevision == r.row.credentialRevision && row.revision >= r.row.revision
    requires row.revision == r.row.revision ==> row.grant == r.row.grant
    requires GrantOk(r.(row := row)) && (row.status.Ready? ==> !row.accessRevoked)
    ensures RecordsOk(r.(row := row)) && Grows(r, r.(row := row))
  {
    hide Settled, Gapless, Supports;
  }

  /** Changing one device while its configurations grow. */
  lemma DeviceChange(r: Records, d: nat, device: Device)
    requires RecordsOk(r) && d in r.devices && r.devices[d].configs <= device.configs && Gapless(device.configs)
    ensures RecordsOk(r.(devices := r.devices[d := device])) && Grows(r, r.(devices := r.devices[d := device]))
  {
    hide Settled, Gapless, Supports;
  }

  lemma SwitchOffKeeps(r: Records, d: nat)
    requires RecordsOk(r)
    ensures RecordsOk(r.(devices := SwitchOff(r.devices, d))) && Grows(r, r.(devices := SwitchOff(r.devices, d)))
  {
    hide RecordsOk, Grows;
    GrowsItself(r);
    if d in r.devices {
      GaplessOf(r, d);
      DeviceChange(r, d, r.devices[d].(control := false));
    } else {
      assert r.(devices := SwitchOff(r.devices, d)) == r;
    }
  }

  lemma GaplessOf(r: Records, d: nat)
    requires RecordsOk(r) && d in r.devices
    ensures Gapless(r.devices[d].configs)
  {
  }

  /** A ready row has no device and no revoked access. */
  lemma ReadyIsFree(r: Records)
    requires RecordsOk(r) && r.row.status.Ready?
    ensures r.row.device.None? && !r.row.accessRevoked
  {
  }

  lemma PlaceOf(r: Records)
    requires RecordsOk(r)
    ensures PlaceOk(r)
  {
  }

  lemma InvalidateKeeps(r: Records)
    requires RecordsOk(r) && Invalidate(r.row).Some?
    ensures
      var s := r.(row := Invalidate(r.row).value);
      RecordsOk(s) && Grows(r, s) && s.row.revision == r.row.revision + 1 && s.row.grant.None?
  {
    hide RecordsOk, Grows;
    PlaceOf(r);
    RowChange(r, Invalidate(r.row).value);
  }

  /** A new revision of the key of the claimed device, not yet applied. */
  lemma KeyChange(r: Records, d: nat, c: Credential, row: Controller)
    requires RecordsOk(r) && r.row.device == Some(d) && r.row.status.Claimed? && r.row.grant.None?
    requires row == r.row.(credentialRevision := r.row.credentialRevision + 1, accessRevoked := row.accessRevoked)
    requires c == Credential(r.row.credentialRevision + 1, if d in r.credentials then r.credentials[d].applied else 0,
      c.revoked)
    ensures
      var s := r.(row := row, credentials := r.credentials[d := c]);
      RecordsOk(s) && Grows(r, s)
  {
    hide Settled, Gapless, Supports;
    var s := r.(row := row, credentials := r.credentials[d := c]);
    forall e | e in s.credentials && e != d ensures e in r.credentials && s.credentials[e] == r.credentials[e] {}
    assert KeysOk(s) && BrokerOk(s);
  }

  lemma IssueKeeps(r: Records, d: nat)
    requires RecordsOk(r) && r.row.device == Some(d) && r.row.status.Claimed? && r.row.grant.None?
    ensures RecordsOk(Issue(r, d)) && Grows(r, Issue(r, d))
  {
    hide RecordsOk, Grows;
    KeyChange(r, d, Issue(r, d).credentials[d], Issue(r, d).row);
  }

  lemma RevokeKeeps(r: Records)
    requires RecordsOk(r) && r.row.grant.None? && !r.row.status.Ready?
    ensures RecordsOk(Revoke(r)) && Grows(r, Revoke(r))
  {
    hide RecordsOk, Grows, KeysOk;
    if r.row.device.Some? && r.row.device.value in r.credentials && !r.credentials[r.row.device.value].revoked {
      var d := r.row.device.value;
      UnrevokedIsClaimed(r, d);
      KeyChange(r, d, Revoke(r).credentials[d], Revoke(r).row);
    } else {
      RevokedStays(r);
    }
  }

  lemma RevokedStays(r: Records)
    requires RecordsOk(r) && r.row.grant.None? && !r.row.status.Ready?
    ensures RecordsOk(r.(row := r.row.(accessRevoked := true))) && Grows(r, r.(row := r.row.(accessRevoked := true)))
  {
    hide RecordsOk, Grows;
    RowChange(r, r.row.(accessRevoked := true));
  }

  lemma UnrevokedIsClaimed(r: Records, d: nat)
    requires RecordsOk(r) && d in r.credentials && !r.credentials[d].revoked
    ensures r.row.status.Claimed? && r.row.device == Some(d)
  {
  }

  /** Revoking touches the row and one key, and leaves no valid key behind. */
  lemma RevokeEffect(r: Records)
    ensures r.row.device.Some? && r.row.device.value in r.credentials
      ==> Revoke(r).credentials[r.row.device.value].revoked
    ensures Revoke(r) == r.(row := Revoke(r).row, credentials := Revoke(r).credentials)
    ensures Revoke(r).row == r.row.(accessRevoked := true, credentialRevision := Revoke(r).row.credentialRevision)
    ensures Revoke(r).credentials.Keys == r.credentials.Keys
  {
  }

  /** Cut short or not, a synchronisation keeps everything; carried through, it settles the key. */
  lemma SynchronizeKeeps(r: Records, d: nat, budget: nat, lost: bool)
    requires RecordsOk(r)
    ensures
      var (s, done) := Synchronize(r, d, budget, lost);
      && RecordsOk(s) && Grows(r, s) && s.row == r.row && s.devices == r.devices
      && (done && d in r.credentials ==> s.credentials[d] == r.credentials[d].(applied := r.credentials[d].revision))
      && (done ==> s.credentials.Keys == r.credentials.Keys)
  {
    hide Settled, Gapless, Supports, Applied;
    GrowsItself(r);
    var (s, done) := Synchronize(r, d, budget, lost);
    if d in r.credentials && r.credentials[d].applied != r.credentials[d].revision {
      var c := r.credentials[d];
      ApplyEffect(r.broker, d, c.revision, c.revoked, budget, lost);
      forall e | e in s.broker.clients
        ensures e in s.credentials && s.broker.clients[e].password <= s.credentials[e].revision
      {
        ApplyElsewhere(r.broker, d, c.revision, c.revoked, budget, lost, e);
      }
      forall e | e in s.credentials && s.credentials[e].applied == s.credentials[e].revision
        ensures Settled(s.broker, e, s.credentials[e].revision, s.credentials[e].revoked)
      {
        ApplyElsewhere(r.broker, d, c.revision, c.revoked, budget, lost, e);
      }
    }
  }

  lemma ApplyEffect(b: Broker, d: nat, password: nat, revoked: bool, budget: nat, lost: bool)
    ensures
      var (c, confirmed) := Applied(b, d, password, revoked, budget, lost);
      && (confirmed ==> Settled(c, d, password, revoked))
      && (d in c.clients ==>
            || c.clients[d].password == password
            || (d in b.clients && c.clients[d].password == b.clients[d].password))
  {
    var plan := Plan(b, d, password, revoked);
    PrefixAccount(b, d, password, revoked, Effective(budget, lost, |plan|));
    if Applied(b, d, password, revoked, budget, lost).1 {
      FullApplySettles(b, d, password, revoked, budget, lost);
    }
  }

  lemma ApplyElsewhere(b: Broker, d: nat, password: nat, revoked: bool, budget: nat, lost: bool, e: nat)
    ensures
      var c := Applied(b, d, password, revoked, budget, lost).0;
      e != d ==>
        && (e in c.clients <==> e in b.clients) && (e in b.clients ==> c.clients[e] == b.clients[e])
        && (e in c.roles <==> e in b.roles)
    ensures
      var c := Applied(b, d, password, revoked, budget, lost).0;
      e != d ==> forall p: nat, x: bool :: Settled(c, e, p, x) == Settled(b, e, p, x)
  {
    if e != d {
      var plan := Plan(b, d, password, revoked);
      OthersUntouched(b, d, plan[..Effective(budget, lost, |plan|)], e);
    }
  }

  // ---------------------------------------------------------------- every transaction keeps it

  lemma ClaimKeeps(r: Records, d: nat)
    requires RecordsOk(r) && Claim(r, d).Some?
    ensures RecordsOk(Claim(r, d).value) && Grows(r, Claim(r, d).value)
  {
    hide Settled, Gapless, Supports;
    NothingConfigured();
    assert d !in r.credentials;
  }

  lemma NothingConfigured()
    ensures Gapless([])
  {
  }

  lemma AddDriveKeeps(r: Records, d: nat, drive: nat, acceptable: bool)
    requires RecordsOk(r) && AddDrive(r, d, drive, acceptable).Some?
    ensures RecordsOk(AddDrive(r, d, drive, acceptable).value) && Grows(r, AddDrive(r, d, drive, acceptable).value)
  {
    hide RecordsOk, Grows;
    GaplessOf(r, d);
    DeviceChange(r, d, r.devices[d].(drives := r.devices[d].drives + {drive}));
  }

  /** Invalidating and changing the device: the common shape of the equipment transactions. */
  lemma InvalidateAndChange(r: Records, d: nat, device: Device)
    requires RecordsOk(r) && d in r.devices && Invalidate(r.row).Some?
    requires r.devices[d].configs <= device.configs && Gapless(device.configs)
    ensures
      var s := r.(row := Invalidate(r.row).value, devices := r.devices[d := device]);
      RecordsOk(s) && Grows(r, s)
  {
    hide RecordsOk, Grows, Gapless, Invalidate;
    InvalidateKeeps(r);
    var s := r.(row := Invalidate(r.row).value);
    DeviceChange(s, d, device);
    GrowsTransitive(r, s, s.(devices := s.devices[d := device]));
  }

  lemma ConfigureKeeps(r: Records, d: nat, s: Setup)
    requires RecordsOk(r) && Configure(r, d, s).Some?
    ensures RecordsOk(Configure(r, d, s).value) && Grows(r, Configure(r, d, s).value)
  {
    hide RecordsOk, Grows;
    GaplessOf(r, d);
    InvalidateAndChange(r, d, Configure(r, d, s).value.devices[d]);
  }

  lemma ReplaceKeeps(r: Records, d: nat, expected: nat, was: nat, becomes: nat, acceptable: bool, stopped: bool)
    requires RecordsOk(r) && Replace(r, d, expected, was, becomes, acceptable, stopped).Some?
    ensures
      var s := Replace(r, d, expected, was, becomes, acceptable, stopped).value;
      RecordsOk(s) && Grows(r, s)
  {
    hide RecordsOk, Grows, Gapless;
    GaplessOf(r, d);
    InvalidateAndChange(r, d, Replace(r, d, expected, was, becomes, acceptable, stopped).value.devices[d]);
  }

  lemma CommissionKeeps(r: Records, d: nat, a: Approval)
    requires RecordsOk(r) && Commission(r, d, a).Some?
    ensures RecordsOk(Commission(r, d, a).value) && Grows(r, Commission(r, d, a).value)
  {
    hide RecordsOk, Gapless, Supports;
    var s := Commission(r, d, a).value;
    GaplessOf(r, d);
    DeviceChange(r, d, s.devices[d]);
    var t := r.(devices := s.devices);
    RowChange(t, s.row);
    GrowsTransitive(r, t, s);
  }

  lemma RecordCapabilityKeeps(r: Records, capability: Capability)
    requires RecordsOk(r) && RecordCapability(r, capability).Some?
    ensures RecordsOk(RecordCapability(r, capability).value) && Grows(r, RecordCapability(r, capability).value)
  {
    hide RecordsOk, Grows;
    var s := RecordCapability(r, capability).value;
    GrantNeedsDevice(r);
    PlaceOf(r);
    RowChange(r, s.row);
    SwitchOffKeeps(r.(row := s.row), if r.row.device.Some? then r.row.device.value else 0);
    if s.devices != r.devices {
      GrowsTransitive(r, r.(row := s.row), s);
    }
  }

  lemma GrantNeedsDevice(r: Records)
    requires RecordsOk(r)
    ensures GrantOk(r)
  {
  }

  lemma GreetKeeps(r: Records, capability: Capability, sameNetwork: bool)
    requires RecordsOk(r)
    ensures
      var (s, greeting) := Greet(r, capability, sameNetwork);
      RecordsOk(s) && Grows(r, s) && (greeting.Proceeds? ==> s.row.device == Some(greeting.device))
  {
    hide RecordsOk, Grows, RecordCapability;
    GrowsItself(r);
    if RecordCapability(r, capability).Some? {
      RecordCapabilityKeeps(r, capability);
      var s := RecordCapability(r, capability).value;
      var (t, greeting) := Greet(r, capability, sameNetwork);
      if greeting.Proceeds? && greeting.device !in s.credentials {
        FirstKeyKeeps(s, greeting.device);
        GrowsTransitive(r, s, t);
      }
    }
  }

  /** The first key of a claimed device leaves its grant alone. */
  lemma FirstKeyKeeps(r: Records, d: nat)
    requires RecordsOk(r) && r.row.device == Some(d) && r.row.status.Claimed? && d !in r.credentials
    requires !r.row.accessRevoked
    ensures RecordsOk(Issue(r, d)) && Grows(r, Issue(r, d))
  {
    hide Settled, Gapless, Supports;
    var s := Issue(r, d);
    forall e | e in s.credentials && e != d ensures e in r.credentials && s.credentials[e] == r.credentials[e] {}
    assert KeysOk(s) && BrokerOk(s);
  }

  lemma RecheckKeeps(r: Records, d: nat)
    requires RecordsOk(r) && d in r.devices && Recheck(r, d).Some?
    ensures RecordsOk(Recheck(r, d).value) && Grows(r, Recheck(r, d).value)
  {
    hide RecordsOk, Grows;
    GrowsItself(r);
    var s := Recheck(r, d).value;
    if s != r {
      InvalidateKeeps(r);
      var t := r.(row := s.row);
      SwitchOffKeeps(t, d);
      if s != t {
        GrowsTransitive(r, t, s);
      }
    }
  }

  lemma RenewKeeps(r: Records, d: nat, hash: nat)
    requires RecordsOk(r) && Renew(r, d, hash).Some?
    ensures RecordsOk(Renew(r, d, hash).value) && Grows(r, Renew(r, d, hash).value)
    ensures Renew(r, d, hash).value.row == r.row
  {
    hide RecordsOk, Grows;
    GrowsItself(r);
    GaplessOf(r, d);
    if r.devices[d].configs != [] {
      DeviceChange(r, d, Renew(r, d, hash).value.devices[d]);
    }
  }

  lemma RetireKeeps(r: Records, d: nat)
    requires RecordsOk(r) && d in r.devices
    ensures
      var s := r.(devices := r.devices[d := r.devices[d].(lifecycle := Retired)]);
      RecordsOk(s) && Grows(r, s)
  {
    hide RecordsOk, Grows;
    GaplessOf(r, d);
    DeviceChange(r, d, r.devices[d].(lifecycle := Retired));
  }

  /** The row leaves the claimed status once the key of its device is revoked. */
  lemma StatusKeeps(r: Records, status: Status)
    requires RecordsOk(r) && r.row.grant.None? && (status.Quarantined? || (status.Releasing? && r.row.device.Some?))
    requires r.row.device.Some? && r.row.device.value in r.credentials ==> r.credentials[r.row.device.value].revoked
    ensures
      var s := r.(row := r.row.(status := status));
      RecordsOk(s) && Grows(r, s)
  {
    hide Settled, Gapless, Supports;
  }

  lemma OperateKeeps(r: Records, q: Request)
    requires RecordsOk(r) && Operate(r, q).Some?
    ensures RecordsOk(Operate(r, q).value) && Grows(r, Operate(r, q).value)
    ensures r.row.device.Some? && (q.operation.Release? ==> Former(Operate(r, q).value, r.row.device.value))
  {
    hide RecordsOk, Grows, Renew, Issue, Revoke, SwitchOff, Invalidate;
    var d := r.row.device.value;
    InvalidateKeeps(r);
    InvalidatedRow(r.row);
    var i := r.(row := Invalidate(r.row).value);
    DeviceIsKnown(i);
    if q.operation.Rotate? {
      RenewKeeps(i, d, q.hash);
      var s := Renew(i, d, q.hash).value;
      GrowsTransitive(r, i, s);
      IssueKeeps(s, d);
      GrowsTransitive(r, s, Issue(s, d));
    } else {
      RevokeKeeps(i);
      RevokeEffect(i);
      var s := Revoke(i);
      GrowsTransitive(r, i, s);
      SwitchOffKeeps(s, d);
      SwitchedOff(s.devices, d);
      var t := s.(devices := SwitchOff(s.devices, d));
      GrowsTransitive(r, s, t);
      if q.operation.Release? {
        StatusKeeps(t, Releasing);
        var u := t.(row := t.row.(status := Releasing));
        GrowsTransitive(r, t, u);
        RetireKeeps(u, d);
        GrowsTransitive(r, u, Operate(r, q).value);
      }
    }
  }

  lemma InvalidatedRow(c: Controller)
    requires Invalidate(c).Some?
    ensures Invalidate(c).value == c.(revision := c.revision + 1, grant := None)
  {
  }

  lemma SwitchedOff(devices: map<nat, Device>, d: nat)
    ensures SwitchOff(devices, d).Keys == devices.Keys
  {
  }

  lemma DeviceIsKnown(r: Records)
    requires RecordsOk(r) && r.row.device.Some?
    ensures r.row.device.value in r.devices
  {
  }

  /** The row lets go of its device, whose key is revoked. */
  lemma LetGoKeeps(r: Records, row: Controller)
    requires RecordsOk(r) && !r.row.status.Claimed? && r.row.grant.None?
    requires row == row.(generation := r.row.generation + 1, device := None, status := Ready, grant := None)
    requires row.revision >= r.row.revision && row.credentialRevision == r.row.credentialRevision && !row.accessRevoked
    ensures RecordsOk(r.(row := row)) && Grows(r, r.(row := row))
  {
    hide Settled, Gapless, Supports;
  }

  lemma FinishReleaseKeeps(r: Records, d: nat, generation: nat)
    requires RecordsOk(r) && FinishRelease(r, d, generation).Some?
    ensures RecordsOk(FinishRelease(r, d, generation).value) && Grows(r, FinishRelease(r, d, generation).value)
    ensures Former(r, d) && Former(FinishRelease(r, d, generation).value, d)
  {
    hide RecordsOk, Grows;
    DeviceIsKnown(r);
    GrantNeedsDevice(r);
    LetGoKeeps(r, FinishRelease(r, d, generation).value.row);
  }

  lemma StartResetKeeps(r: Records, generation: nat)
    requires RecordsOk(r) && StartReset(r, generation).Some?
    ensures RecordsOk(StartReset(r, generation).value) && Grows(r, StartReset(r, generation).value)
    ensures r.row.device.Some? ==> Former(StartReset(r, generation).value, r.row.device.value)
  {
    hide RecordsOk, Grows, Revoke;
    GrowsItself(r);
    GrantNeedsDevice(r);
    if r.row.device.Some? {
      var d := r.row.device.value;
      PlaceOf(r);
      RevokeKeeps(r);
      RevokeEffect(r);
      var s := Revoke(r);
      DeviceIsKnown(s);
      GaplessOf(s, d);
      DeviceChange(s, d, s.devices[d].(lifecycle := Retired, control := false));
      GrowsTransitive(r, s, StartReset(r, generation).value);
    }
  }

  lemma FinishResetKeeps(r: Records, generation: nat)
    requires RecordsOk(r) && FinishReset(r, generation).Some?
    ensures RecordsOk(FinishReset(r, generation).value) && Grows(r, FinishReset(r, generation).value)
  {
    hide RecordsOk, Grows;
    GrantNeedsDevice(r);
    LetGoKeeps(r, FinishReset(r, generation).value.row);
  }

  lemma QuarantineKeeps(r: Records)
    requires RecordsOk(r) && Quarantine(r).Some?
    ensures RecordsOk(Quarantine(r).value) && Grows(r, Quarantine(r).value)
  {
    hide RecordsOk, Grows, Invalidate;
    InvalidateKeeps(r);
    InvalidatedRow(r.row);
    var i := r.(row := Invalidate(r.row).value);
    if r.row.device.Some? {
      PlaceOf(i);
      RevokeKeeps(i);
      RevokeEffect(i);
      var s := Revoke(i);
      GrowsTransitive(r, i, s);
      StatusKeeps(s, Quarantined);
      assert Quarantine(r).value == s.(row := s.row.(status := Quarantined));
      GrowsTransitive(r, s, Quarantine(r).value);
    } else {
      StatusKeeps(i, Quarantined);
      GrowsTransitive(r, i, Quarantine(r).value);
    }
  }

  // ---------------------------------------------------------------- what each transaction takes and does

  /** The device that the controller is claimed for, in use and with access. */
  ghost predicate InUse(r: Records, d: nat)
  {
    r.row.status.Claimed? && !r.row.accessRevoked && r.row.device == Some(d) && d in r.devices
    && (r.devices[d].lifecycle.Provisioning? || r.devices[d].lifecycle.Active? || r.devices[d].lifecycle.Maintenance?)
  }

  /** The control number is one higher, and the grant is this. */
  ghost predicate Renumbered(r: Records, s: Records, grant: Option<Grant>)
  {
    r.row.revision < 2147483647 && s.row == r.row.(revision := r.row.revision + 1, grant := grant)
  }

  /** Only this device has changed. */
  ghost predicate OnlyDevice(r: Records, s: Records, d: nat)
  {
    && s.credentials == r.credentials && s.broker == r.broker && s.devices.Keys == r.devices.Keys
    && forall e | e in r.devices && e != d :: s.devices[e] == r.devices[e]
  }

  /** Commissioning takes a verified, stopped device with its latest configuration, out of
      maintenance, a firmware that reaches the mode, and the motor for the extended test. */
  lemma CommissionExactlyIf(r: Records, d: nat, a: Approval)
    requires RecordsOk(r)
    ensures
      Commission(r, d, a).Some? <==>
        && InUse(r, d) && !r.devices[d].lifecycle.Maintenance? && r.row.revision < 2147483647
        && r.devices[d].configs != [] && a.expected == |r.devices[d].configs| && a.verified && a.stopped
        && (a.mode.BenchWithoutMotor? ==> r.row.capability.CanBench? || r.row.capability.CanFull?)
        && (a.mode.ExtendedTest? ==> r.row.capability.CanFull? && a.motor)
    ensures
      Commission(r, d, a).Some? ==>
        var s := Commission(r, d, a).value;
        var configs := r.devices[d].configs;
        && Renumbered(r, s, Some(Grant(a.mode, configs[|configs| - 1].hash))) && OnlyDevice(r, s, d)
        && s.devices[d] == r.devices[d].(lifecycle := Active, control := a.mode.BenchWithoutMotor?
          || a.mode.ExtendedTest?)
  {
    if d in r.devices { GaplessOf(r, d); }
  }

  /** A reported capability is always stored, and ends exactly the grants it no longer reaches. */
  lemma FirmwareEndsExactly(r: Records, capability: Capability)
    requires RecordsOk(r) && r.row.revision < LIMIT
    ensures
      var ends := r.row.grant.Some? && !r.row.grant.value.mode.ReadOnly?
        && (capability.CanRead? || (capability.CanBench? && r.row.grant.value.mode.ExtendedTest?));
      && RecordCapability(r, capability).Some?
      && var s := RecordCapability(r, capability).value;
         && s.row.capability == capability && s.credentials == r.credentials && s.broker == r.broker
         && (ends ==> Renumbered(r.(row := r.row.(capability := capability)), s, None))
         && (ends ==> OnlyDevice(r, s, r.row.device.value) && !s.devices[r.row.device.value].control)
         && (!ends ==> s == r.(row := r.row.(capability := capability)))
  {
  }

  /** A configuration follows the latest one, for a usable drive of the device; beyond the first one
      before commissioning, the device must be in maintenance or stopped. */
  lemma ConfigureExactlyIf(r: Records, d: nat, s: Setup)
    requires RecordsOk(r)
    ensures
      Configure(r, d, s).Some? <==>
        && InUse(r, d) && r.row.revision < LIMIT && s.expected == |r.devices[d].configs| < LIMIT
        && s.drive in r.devices[d].drives && s.acceptable && HashIsNew(r.devices, s.hash)
        && (r.devices[d].lifecycle.Maintenance? || s.stopped
            || (r.devices[d].configs == [] && r.devices[d].lifecycle.Provisioning?))
    ensures
      Configure(r, d, s).Some? ==>
        var t, was := Configure(r, d, s).value, r.devices[d];
        && Renumbered(r, t, None) && OnlyDevice(r, t, d)
        && |t.devices[d].configs| == |was.configs| + 1 && was.configs <= t.devices[d].configs
        && t.devices[d].drives == was.drives && !t.devices[d].control && t.devices[d].lifecycle.Provisioning?
        && FollowsOn(was.configs, t.devices[d].configs[|was.configs|], s)
  {
    if d in r.devices { GaplessOf(r, d); }
  }

  /** The next revision, of the drive and the manifest that were asked for; the binding of the same
      drive stays, and another drive begins a new generation of the binding. */
  ghost predicate FollowsOn(configs: seq<Config>, c: Config, s: Setup)
  {
    && c.revision == |configs| + 1 && c.drive == s.drive && c.hash == s.hash
    && (configs == [] ==> c.generation == 1 && c.binding == s.binding)
    && (configs != [] ==>
          var last := configs[|configs| - 1];
          if s.drive == last.drive then c.binding == last.binding && c.generation == last.generation
          else c.binding == s.binding && c.generation == last.generation + 1)
  }

  /** A replacement takes a stopped device, its latest revision and the drive that goes. */
  lemma ReplaceExactlyIf(r: Records, d: nat, expected: nat, was: nat, becomes: nat, acceptable: bool, stopped: bool)
    requires RecordsOk(r)
    ensures
      Replace(r, d, expected, was, becomes, acceptable, stopped).Some? <==>
        && InUse(r, d) && r.row.revision < LIMIT && expected == |r.devices[d].configs|
        && was in r.devices[d].drives && acceptable && stopped
    ensures
      Replace(r, d, expected, was, becomes, acceptable, stopped).Some? ==>
        var s := Replace(r, d, expected, was, becomes, acceptable, stopped).value;
        && Renumbered(r, s, None) && OnlyDevice(r, s, d)
        && becomes in s.devices[d].drives && (was != becomes ==> was !in s.devices[d].drives)
        && (forall x | x != was && x != becomes :: x in s.devices[d].drives <==> x in r.devices[d].drives)
        && s.devices[d].configs == r.devices[d].configs && !s.devices[d].control && s.devices[d].lifecycle.Maintenance?
  {
    if d in r.devices { GaplessOf(r, d); }
  }

  /** What a controller that reports in is told before its configuration. */
  lemma GreetingMeans(r: Records, capability: Capability, sameNetwork: bool)
    requires RecordsOk(r) && r.row.revision < LIMIT
    ensures
      var (s, greeting) := Greet(r, capability, sameNetwork);
      var t := RecordCapability(r, capability).value;
      var denied := r.row.accessRevoked || r.row.status.Releasing? || r.row.status.Quarantined?;
      && (greeting.SaysRevoked? <==> denied)
      && (greeting.WrongNetwork? <==> !denied && !sameNetwork)
      && (greeting.SaysWaiting? <==> !denied && sameNetwork && r.row.status.Ready?)
      && (greeting.Proceeds? <==> !denied && sameNetwork && r.row.status.Claimed?)
      && (greeting.Proceeds? ==> r.row.device == Some(greeting.device) && greeting.device in s.credentials)
      && (if greeting.Proceeds? && greeting.device !in r.credentials
          then
            && s.credentials == r.credentials[greeting.device := Credential(r.row.credentialRevision + 1, 0, false)]
            && s == t.(credentials := s.credentials, row := s.row)
            && s.row == t.row.(credentialRevision := r.row.credentialRevision + 1, accessRevoked := false)
          else s == t)
  {
    FirmwareEndsExactly(r, capability);
    hide RecordCapability;
  }

  /** A grant that no longer fits ends before the controller is answered: when its configuration is not
      the latest, the device is in maintenance or retired, or control was switched off. */
  lemma RecheckEndsExactly(r: Records, d: nat)
    requires RecordsOk(r) && d in r.devices && r.row.revision < LIMIT
    ensures
      var device := r.devices[d];
      var replaced := device.configs == [] || device.lifecycle.Maintenance? || device.lifecycle.Retired?
        || (r.row.grant.Some? && device.configs[|device.configs| - 1].hash != r.row.grant.value.hash);
      var off := r.row.grant.Some? && !r.row.grant.value.mode.ReadOnly? && !device.control;
      && Recheck(r, d).Some?
      && (r.row.grant.Some? && replaced ==>
            && Renumbered(r, Recheck(r, d).value, None) && OnlyDevice(r, Recheck(r, d).value, d)
            && Recheck(r, d).value.devices[d] == device.(control := false))
      && (!replaced && off ==> Renumbered(r, Recheck(r, d).value, None) && Recheck(r, d).value.devices == r.devices)
      && (r.row.grant.None? || (!replaced && !off) ==> Recheck(r, d).value == r)
  {
  }

  /** A grant counts only on a claimed controller with access, for the configuration it was given for, on
      an active device; in any other state, even one that no run reaches, only reading is allowed. */
  lemma GrantCountsExactlyIf(row: Controller, device: Device, config: Option<Config>)
    ensures
      var (commissioned, mode) := RuntimeGrant(row, device, config);
      && (commissioned <==>
            && row.status.Claimed? && !row.accessRevoked && row.revision > 0 && device.lifecycle.Active?
            && row.grant.Some? && config.Some? && row.grant.value.hash == config.value.hash)
      && mode == (if commissioned then row.grant.value.mode else ReadOnly)
  {
  }

  /** When a controller gets an answer at all: only with a confirmed key. */
  lemma AnsweredExactlyIf(r: Records, d: nat, host: bool)
    requires RecordsOk(r) && r.row.revision < LIMIT
    ensures
      var mine := r.row.status.Claimed? && !r.row.accessRevoked && r.row.device == Some(d);
      && (!mine ==> Answer(r, d, host) == Some((r, None)))
      && (mine ==>
            (Answer(r, d, host).Some? <==>
               && host && d in r.credentials && !r.credentials[d].revoked
               && r.credentials[d].applied == r.credentials[d].revision))
      && (mine && Answer(r, d, host).Some? ==>
            Answer(r, d, host).value.1.Some? && Some(Answer(r, d, host).value.0) == Recheck(r, d))
  {
    if r.row.device.Some? { DeviceIsKnown(r); }
    hide RuntimeGrant;
  }

  /** A renewed confirmation is the next revision of the same drive and binding, under the new hash; a
      device without configuration needs none. */
  lemma RenewDoes(r: Records, d: nat, hash: nat)
    requires RecordsOk(r)
    ensures Renew(r, d, hash).Some? <==>
            d in r.devices && (r.devices[d].configs == []
              || (|r.devices[d].configs| < LIMIT && HashIsNew(r.devices, hash)))
    ensures Renew(r, d, hash).Some? ==>
              var s, was := Renew(r, d, hash).value, r.devices[d].configs;
              && s.row == r.row && OnlyDevice(r, s, d) && s.devices[d] == r.devices[d].(configs := s.devices[d].configs)
              && (was == [] ==> s == r)
              && (was != [] ==>
                    var c, last := s.devices[d].configs[|s.devices[d].configs| - 1], was[|was| - 1];
                    && s.devices[d].configs == was + [c] && c.revision == |was| + 1 && c.hash == hash
                    && c.drive == last.drive && c.binding == last.binding && c.generation == last.generation)
  {
    if d in r.devices { GaplessOf(r, d); }
  }

  /** Rotation, revocation and release ask for the generation and key in force; a release under way
      can only be released again, and what takes control away needs a stopped device. */
  lemma OperateExactlyIf(r: Records, q: Request)
    requires RecordsOk(r) && (q.operation.Rotate? ==> HashIsNew(r.devices, q.hash))
    requires r.row.device.Some? ==> |r.devices[r.row.device.value].configs| < LIMIT
    ensures
      Operate(r, q).Some? <==>
        && r.row.revision < LIMIT && r.row.device.Some? && q.generation == r.row.generation
        && q.key == r.row.credentialRevision
        && ((r.row.status.Releasing? && q.operation.Release?)
            || (r.row.status.Claimed?
                && (q.operation.Release? ==> q.stopped)
                && (q.operation.Rotate? ==> q.stopped || r.row.accessRevoked)))
  {
    if r.row.device.Some? { GaplessOf(r, r.row.device.value); }
    hide NextConfig, Revoke, Issue;
  }

  /** What they do: in every case the grant ends under the next number. A rotation issues the next key,
      gives access again and asks for a new confirmation; the others revoke key and access and switch
      control off, and a release retires the device. */
  lemma OperateDoes(r: Records, q: Request)
    requires RecordsOk(r) && Operate(r, q).Some?
    ensures
      var s, d := Operate(r, q).value, r.row.device.value;
      && s.row.revision == r.row.revision + 1 && s.row.grant.None? && s.row.device == r.row.device
      && s.row.generation == r.row.generation && s.row.capability == r.row.capability && s.broker == r.broker
      && s.devices.Keys == r.devices.Keys && (forall e | e in r.devices && e != d :: s.devices[e] == r.devices[e])
      && (forall e | e in r.credentials && e != d :: e in s.credentials && s.credentials[e] == r.credentials[e])
      && (q.operation.Rotate? ==>
            && s.row.status == r.row.status && !s.row.accessRevoked
            && s.row.credentialRevision == r.row.credentialRevision + 1
            && s.credentials[d].revision == s.row.credentialRevision && !s.credentials[d].revoked
            && s.credentials[d].applied == (if d in r.credentials then r.credentials[d].applied else 0)
            && s.devices[d] == r.devices[d].(configs := s.devices[d].configs)
            && |s.devices[d].configs| == |r.devices[d].configs| + (if r.devices[d].configs == [] then 0 else 1))
      && (!q.operation.Rotate? ==>
            && s.row.accessRevoked && !s.devices[d].control && s.devices[d].configs == r.devices[d].configs
            && (d in s.credentials <==> d in r.credentials) && (d in s.credentials ==> s.credentials[d].revoked)
            && (s.row.status.Releasing? <==> q.operation.Release?)
            && (q.operation.Release? ==> s.devices[d].lifecycle.Retired?)
            && (q.operation.RevokeAccess?
              ==> s.row.status == r.row.status && s.devices[d].lifecycle == r.devices[d].lifecycle))
  {
    if r.row.device.Some? { GaplessOf(r, r.row.device.value); }
  }

  /** The hand-over looks at the generation, the status and the device again. */
  lemma FinishReleaseExactlyIf(r: Records, d: nat, generation: nat)
    ensures FinishRelease(r, d, generation).Some? <==>
            r.row.status.Releasing? && r.row.generation == generation && r.row.device == Some(d)
    ensures FinishRelease(r, d, generation).Some? ==>
              var s := FinishRelease(r, d, generation).value;
              && s.row.status.Ready? && s.row.device.None? && !s.row.accessRevoked
              && s.row.generation == r.row.generation + 1
              && s.row.revision == r.row.revision && s.row.grant == r.row.grant && s == r.(row := s.row)
  {
  }

  /** Both halves of a reset take a ready or quarantined row of this generation; the first revokes and
      retires the device it finds, the second begins the next generation. */
  lemma ResetDoes(r: Records, generation: nat)
    requires RecordsOk(r)
    ensures StartReset(r, generation).Some? <==>
            (r.row.status.Ready? || r.row.status.Quarantined?) && generation == r.row.generation
    ensures FinishReset(r, generation).Some? <==>
            (r.row.status.Ready? || r.row.status.Quarantined?) && generation == r.row.generation
              && r.row.revision < LIMIT
    ensures StartReset(r, generation).Some? ==>
              var s := StartReset(r, generation).value;
              && (r.row.device.None? ==> s == r)
              && (r.row.device.Some? ==>
                    var d := r.row.device.value;
                    && s.devices[d].lifecycle.Retired? && !s.devices[d].control && s.row.accessRevoked
                    && s.devices[d].configs == r.devices[d].configs
                    && (d in s.credentials ==> s.credentials[d].revoked)
                    && s.row.status == r.row.status && s.row.device == r.row.device
                    && s.row.generation == r.row.generation)
    ensures FinishReset(r, generation).Some? ==>
              var s := FinishReset(r, generation).value;
              && s.row.generation == r.row.generation + 1 && s.row.revision == r.row.revision + 1
              && s.row.grant.None? && s.row.device.None? && s.row.status.Ready? && !s.row.accessRevoked
              && s.row.capability.CanRead? && s.row.credentialRevision == r.row.credentialRevision
              && s == r.(row := s.row)
  {
  }

  /** A quarantine ends the grant and revokes the key of the device, if there is one. */
  lemma QuarantineDoes(r: Records)
    requires RecordsOk(r)
    ensures Quarantine(r).Some? <==> r.row.revision < LIMIT
    ensures Quarantine(r).Some? ==>
              var s := Quarantine(r).value;
              && s.row.status.Quarantined? && s.row.revision == r.row.revision + 1 && s.row.grant.None?
              && s.row.device == r.row.device && s.row.generation == r.row.generation && s.devices == r.devices
              && (r.row.device.None? ==> s.credentials == r.credentials && s.row.accessRevoked == r.row.accessRevoked)
              && (r.row.device.Some? ==>
                    s.row.accessRevoked && (r.row.device.value in s.credentials
                      ==> s.credentials[r.row.device.value].revoked))
  {
  }

  /** A claim takes a ready controller and a device that never was; drives come to a device in use. */
  lemma ClaimDoes(r: Records, d: nat, drive: nat, acceptable: bool)
    requires RecordsOk(r)
    ensures Claim(r, d).Some? <==> r.row.status.Ready? && d !in r.devices
    ensures Claim(r, d).Some? ==>
              && Claim(r, d).value.row == r.row.(device := Some(d), status := Claimed)
              && Claim(r, d).value.devices == r.devices[d := Device(Provisioning, {}, [], false)]
              && Claim(r, d).value.credentials == r.credentials && Claim(r, d).value.broker == r.broker
    ensures AddDrive(r, d, drive, acceptable).Some? <==> InUse(r, d) && acceptable
    ensures AddDrive(r, d, drive, acceptable).Some? ==>
              var s := AddDrive(r, d, drive, acceptable).value;
              && s == r.(devices := s.devices) && OnlyDevice(r, s, d) && drive in s.devices[d].drives
              && (forall x | x != drive :: x in s.devices[d].drives <==> x in r.devices[d].drives)
              && s.devices[d] == r.devices[d].(drives := s.devices[d].drives)
  {
  }
}
