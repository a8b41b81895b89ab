/** The budget tracker of one run (internal/budget/tracker.go). The wall clock is outside the model. */
module Budget {

  datatype Limits = Limits(decisions: int, mutations: int, protocolRepairs: int)

  /** protocolRepairs counts the repairs since the last recorded decision. */
  datatype Usage = Usage(decisions: nat, mutations: nat, protocolRepairs: nat)

  class Tracker {
    const limits: Limits
    var usage: Usage

    constructor (limits: Limits)
      ensures this.limits == limits && usage == Usage(0, 0, 0)
    {
      this.limits := limits;
      usage := Usage(0, 0, 0);
    }

    method RecordDecision() returns (ok: bool)
      modifies this
      ensures ok <==> old(usage).decisions < limits.decisions
      ensures usage == if ok then old(usage).(decisions := old(usage).decisions + 1, protocolRepairs := 0) else old(usage)
    {
      if limits.decisions <= 0 || usage.decisions >= limits.decisions { return false; }
      usage := usage.(decisions := usage.decisions + 1);
      usage := usage.(protocolRepairs := 0);
      return true;
    }

    method RecordMutation() returns (ok: bool)
      modifies this
      ensures ok <==> old(usage).mutations < limits.mutations
      ensures usage == if ok then old(usage).(mutations := old(usage).mutations + 1) else old(usage)
    {
      if limits.mutations <= 0 || usage.mutations >= limits.mutations { return false; }
      usage := usage.(mutations := usage.mutations + 1);
      return true;
    }

    method RecordProtocolRepair() returns (ok: bool)
      modifies this
      ensures ok <==> old(usage).protocolRepairs < limits.protocolRepairs
      ensures usage == if ok then old(usage).(protocolRepairs := old(usage).protocolRepairs + 1) else old(usage)
    {
      if limits.protocolRepairs <= 0 || usage.protocolRepairs >= limits.protocolRepairs { return false; }
      usage := usage.(protocolRepairs := usage.protocolRepairs + 1);
      return true;
    }
  }
}
