/** The lifecycle services over objects that are updated in place: the controller row, the keys and
    the devices of the registry, and the connection to the broker. A method that reports failure
    has rolled back; otherwise it has exactly the effect of its transaction. */
module ControllerRegistry {
  import opened Access
  import opened ControllerBroker
  import opened Options

  class FactoryController {
    var status: Status
    var generation: nat
    var device: Option<nat>
    var revision: nat
    var grant: Option<Grant>
    var capability: Capability
    var accessRevoked: bool
    var credentialRevision: nat

    constructor ()
      ensures Value() == Controller(Ready, 1, None, 0, None, CanRead, false, 0)
    {
      status, generation, device, revision := Ready, 1, None, 0;
      grant, capability, accessRevoked, credentialRevision := None, CanRead, false, 0;
    }

    function Value(): Controller
      reads this
    {
      Controller(status, generation, device, revision, grant, capability, accessRevoked, credentialRevision)
    }

    method InvalidateControl() returns (ok: bool)
      modifies this`revision, this`grant
      ensures ok == Invalidate(old(Value())).Some?
      ensures Value() == if ok then Invalidate(old(Value())).value else old(Value())
    {
      if revision >= LIMIT {
        return false;
      }
      revision := revision + 1;
      grant := None;
      return true;
    }
  }

  class ControllerRegistry {
    const row: FactoryController
    const broker: ControllerBroker
    var devices: map<nat, Device>
    var credentials: map<nat, Credential>

    constructor (row: FactoryController, broker: ControllerBroker)
      ensures this.row == row && this.broker == broker && devices == map[] && credentials == map[]
    {
      this.row, this.broker, devices, credentials := row, broker, map[], map[];
    }

    ghost function Contents(): Records
      reads this, row, broker
    {
      Records(row.Value(), devices, credentials, broker.State())
    }

    /** The state after a transaction that may be rolled back. */
    ghost predicate Became(before: Records, ok: bool, after: Option<Records>)
      reads this, row, broker
    {
      ok == after.Some? && Contents() == if ok then after.value else before
    }

    // -------------------------------------------------------------- keys

    method IssueKey(d: nat)
      modifies this`credentials, row`credentialRevision, row`accessRevoked
      ensures Contents() == Issue(old(Contents()), d)
    {
      var applied := if d in credentials then credentials[d].applied else 0;
      row.credentialRevision := row.credentialRevision + 1;
      row.accessRevoked := false;
      credentials := credentials[d := Credential(row.credentialRevision, applied, false)];
    }

    method RevokeKey()
      modifies this`credentials, row`credentialRevision, row`accessRevoked
      ensures Contents() == Revoke(old(Contents()))
    {
      row.accessRevoked := true;
      if row.device.Some? && row.device.value in credentials && !credentials[row.device.value].revoked {
        var d := row.device.value;
        row.credentialRevision := row.credentialRevision + 1;
        credentials := credentials[d := credentials[d].(revision := row.credentialRevision, revoked := true)];
      }
    }

    /** `done` is false if the broker did not confirm everything. */
    method SynchronizeKey(d: nat) returns (done: bool)
      modifies this`credentials, broker
      ensures (Contents(), done) == Synchronize(old(Contents()), d, old(broker.budget), old(broker.lost))
    {
      hide Applied;
      if d !in credentials || credentials[d].applied == credentials[d].revision {
        return true;
      }
      var c := credentials[d];
      done := broker.Apply(d, c.revision, c.revoked);
      if done {
        credentials := credentials[d := c.(applied := c.revision)];
      }
    }

    // -------------------------------------------------------------- equipment

    method ClaimController(d: nat) returns (ok: bool)
      modifies this`devices, row
      ensures Became(old(Contents()), ok, Claim(old(Contents()), d))
    {
      if !row.status.Ready? || d in devices {
        return false;
      }
      devices := devices[d := Device(Provisioning, {}, [], false)];
      row.device := Some(d);
      row.status := Claimed;
      return true;
    }

    method ConfigureDevice(d: nat, s: Setup) returns (ok: bool)
      modifies this`devices, row`revision, row`grant
      ensures Became(old(Contents()), ok, Configure(old(Contents()), d, s))
    {
      hide NextConfig, LastRevision;
      if d !in devices || devices[d].lifecycle.Retired? || row.device != Some(d) || !row.status.Claimed?
        || row.accessRevoked
      {
        return false;
      }
      var device := devices[d];
      if s.expected >= LIMIT || s.expected != LastRevision(device.configs) || s.drive !in device.drives
         || !s.acceptable || !HashIsNew(devices, s.hash) {
        return false;
      }
      var initial := device.configs == [] && device.lifecycle.Provisioning?;
      if !initial && !device.lifecycle.Maintenance? && !s.stopped {
        return false;
      }
      ok := row.InvalidateControl();
      if ok {
        var configs := device.configs + [NextConfig(device.configs, s)];
        devices := devices[d := device.(configs := configs, control := false, lifecycle := Provisioning)];
      }
    }

    method ReplaceDrive(d: nat, expected: nat, was: nat, becomes: nat, acceptable: bool, stopped: bool)
      returns (ok: bool)
      modifies this`devices, row`revision, row`grant
      ensures Became(old(Contents()), ok, Replace(old(Contents()), d, expected, was, becomes, acceptable, stopped))
    {
      hide LastRevision;
      if d !in devices || devices[d].lifecycle.Retired? || row.device != Some(d) || !row.status.Claimed?
        || row.accessRevoked
      {
        return false;
      }
      var device := devices[d];
      if expected != LastRevision(device.configs) || was !in device.drives || !acceptable || !stopped {
        return false;
      }
      ok := row.InvalidateControl();
      if ok {
        devices := devices[d := device.(drives := device.drives - {was} + {becomes}, lifecycle := Maintenance,
          control := false)];
      }
    }

    method CommissionDevice(d: nat, a: Approval) returns (ok: bool)
      modifies this`devices, row`revision, row`grant
      ensures Became(old(Contents()), ok, Commission(old(Contents()), d, a))
    {
      hide LastRevision;
      if d !in devices || devices[d].lifecycle.Retired? || row.device != Some(d) || !row.status.Claimed?
        || row.accessRevoked
      {
        return false;
      }
      if !a.mode.ReadOnly? && (row.capability.CanRead? || (a.mode.ExtendedTest? && !row.capability.CanFull?)) {
        return false;
      }
      var device := devices[d];
      if device.configs == [] || LastRevision(device.configs) != a.expected || !a.verified
        || device.lifecycle.Maintenance? || !a.stopped
      {
        return false;
      }
      if a.mode.ExtendedTest? && !a.motor {
        return false;
      }
      ok := row.InvalidateControl();
      if ok {
        devices := devices[d := device.(control := !a.mode.ReadOnly?, lifecycle := Active)];
        row.grant := Some(Grant(a.mode, device.configs[|device.configs| - 1].hash));
      }
    }

    method SwitchControlOff(d: nat)
      modifies this`devices
      ensures devices == SwitchOff(old(devices), d)
    {
      if d in devices {
        devices := devices[d := devices[d].(control := false)];
      }
    }

    // -------------------------------------------------------------- bootstrap

    method RecordFirmware(capability: Capability) returns (ok: bool)
      modifies this`devices, row
      ensures Became(old(Contents()), ok, Access.RecordCapability(old(Contents()), capability))
    {
      var was := row.capability;
      row.capability := capability;
      if row.device.Some? && row.grant.Some? && !row.grant.value.mode.ReadOnly?
         && (capability.CanRead? || (row.grant.value.mode.ExtendedTest? && !capability.CanFull?)) {
        ok := row.InvalidateControl();
        if !ok {
          row.capability := was;
          return false;
        }
        SwitchControlOff(row.device.value);
      }
      return true;
    }

    method GreetController(capability: Capability, sameNetwork: bool) returns (greeting: Greeting)
      modifies this`devices, this`credentials, row
      ensures (Contents(), greeting) == Greet(old(Contents()), capability, sameNetwork)
    {
      hide Access.RecordCapability, Issue;
      var ok := RecordFirmware(capability);
      if !ok {
        return Rejected;
      }
      if row.status.Quarantined? || row.status.Releasing? || row.accessRevoked {
        return SaysRevoked;
      }
      if !sameNetwork {
        return WrongNetwork;
      }
      if row.status.Ready? || row.device.None? {
        return SaysWaiting;
      }
      var d := row.device.value;
      if d !in credentials {
        IssueKey(d);
      }
      return Proceeds(d);
    }

    method RecheckGrant(d: nat) returns (ok: bool)
      requires d in devices
      modifies this`devices, row`revision, row`grant
      ensures Became(old(Contents()), ok, Recheck(old(Contents()), d))
      ensures devices.Keys == old(devices.Keys)
    {
      var config := OfferedConfig(devices[d]);
      if row.grant.Some? && (config.None? || config.value.hash != row.grant.value.hash) {
        ok := row.InvalidateControl();
        if ok {
          SwitchControlOff(d);
        }
        return;
      }
      if row.grant.Some? && !row.grant.value.mode.ReadOnly? && !devices[d].control {
        ok := row.InvalidateControl();
        return;
      }
      return true;
    }

    /** None is an error without effect; Some(None) tells the controller that it is revoked. */
    method AnswerController(d: nat, host: bool) returns (answer: Option<Option<Reply>>)
      modifies this`devices, row`revision, row`grant
      ensures
        var after := Answer(old(Contents()), d, host);
        if after.None? then answer.None? && Contents() == old(Contents())
        else answer == Some(after.value.1) && Contents() == after.value.0
    {
      hide Recheck, RuntimeGrant, OfferedConfig;
      if !row.status.Claimed? || row.accessRevoked || row.device != Some(d) {
        return Some(None);
      }
      if d !in credentials || d !in devices || credentials[d].revoked
        || credentials[d].applied != credentials[d].revision || !host
      {
        return None;
      }
      var ok := RecheckGrant(d);
      if !ok {
        return None;
      }
      var config := OfferedConfig(devices[d]);
      var (commissioned, mode) := RuntimeGrant(row.Value(), devices[d], config);
      var hash := if config.Some? then Some(config.value.hash) else None;
      return Some(Some(Reply(commissioned, mode, hash, row.revision, credentials[d].revision)));
    }

    // -------------------------------------------------------------- rotation, revocation, release, reset

    method RenewConfirmation(d: nat, hash: nat) returns (ok: bool)
      modifies this`devices
      ensures Became(old(Contents()), ok, Renew(old(Contents()), d, hash))
    {
      if d !in devices {
        return false;
      }
      var device := devices[d];
      if device.configs == [] {
        return true;
      }
      var last := device.configs[|device.configs| - 1];
      if last.revision >= LIMIT || !HashIsNew(devices, hash) {
        return false;
      }
      devices := devices[d := device.(configs := device.configs
        + [last.(revision := last.revision + 1, hash := hash)])];
      return true;
    }

    method RotateKey(d: nat, hash: nat) returns (ok: bool)
      modifies this`devices, this`credentials, row
      ensures
        var i := Invalidate(old(row.Value()));
        if i.None? then !ok && Contents() == old(Contents())
        else
          var s := Renew(old(Contents()).(row := i.value), d, hash);
          ok == s.Some? && Contents() == if ok then Issue(s.value, d) else old(Contents())
    {
      hide Renew, Issue;
      var revision, grant := row.revision, row.grant;
      ok := row.InvalidateControl();
      if !ok {
        return;
      }
      ok := RenewConfirmation(d, hash);
      if !ok {
        row.revision, row.grant := revision, grant;
        return;
      }
      IssueKey(d);
    }

    method OperateAccess(q: Access.Request) returns (ok: bool)
      modifies this`devices, this`credentials, row
      ensures Became(old(Contents()), ok, Operate(old(Contents()), q))
    {
      hide Renew, Issue, Revoke, SwitchOff;
      if row.device.None? || row.generation != q.generation || !(row.status.Claimed? || row.status.Releasing?)
         || row.credentialRevision != q.key || (row.status.Releasing? && !q.operation.Release?) {
        return false;
      }
      if !row.status.Releasing? && (q.operation.Release? || (q.operation.Rotate? && !row.accessRevoked)) && !q.stopped {
        return false;
      }
      var d := row.device.value;
      if q.operation.Rotate? {
        ok := RotateKey(d, q.hash);
        return;
      }
      ok := row.InvalidateControl();
      if !ok {
        return;
      }
      RevokeKey();
      SwitchControlOff(d);
      if q.operation.Release? {
        row.status := Releasing;
        if d in devices {
          devices := devices[d := devices[d].(lifecycle := Retired)];
        }
      }
    }

    method CompleteRelease(d: nat, generation: nat) returns (ok: bool)
      modifies row
      ensures Became(old(Contents()), ok, FinishRelease(old(Contents()), d, generation))
    {
      if row.generation != generation || !row.status.Releasing? || row.device != Some(d) {
        return false;
      }
      row.generation := row.generation + 1;
      row.device, row.status, row.accessRevoked := None, Ready, false;
      return true;
    }

    method BeginReset(generation: nat) returns (ok: bool)
      modifies this`devices, this`credentials, row`credentialRevision, row`accessRevoked
      ensures Became(old(Contents()), ok, StartReset(old(Contents()), generation))
    {
      hide Revoke;
      if row.generation != generation || !(row.status.Ready? || row.status.Quarantined?) {
        return false;
      }
      if row.device.Some? {
        var d := row.device.value;
        RevokeKey();
        if d in devices {
          devices := devices[d := devices[d].(lifecycle := Retired, control := false)];
        }
      }
      return true;
    }

    method CompleteReset(generation: nat) returns (ok: bool)
      modifies row
      ensures Became(old(Contents()), ok, FinishReset(old(Contents()), generation))
    {
      if row.generation != generation || !(row.status.Ready? || row.status.Quarantined?) || row.revision >= LIMIT {
        return false;
      }
      row.generation := row.generation + 1;
      row.device, row.status, row.accessRevoked := None, Ready, false;
      ok := row.InvalidateControl();
      row.capability := CanRead;
    }

    method QuarantineController() returns (ok: bool)
      modifies this`credentials, row
      ensures Became(old(Contents()), ok, Quarantine(old(Contents())))
    {
      hide Revoke;
      ok := row.InvalidateControl();
      if !ok {
        return;
      }
      row.status := Quarantined;
      if row.device.Some? {
        RevokeKey();
      }
    }
  }
}
