/** Issuing power commands: the controller whose log of commands `Relay` interprets. */
module PowerControl {
  import opened Basics
  import opened PowerCommand
  import opened Relay

  /** When an external command ran. */
  datatype Span = Span(begun: nat, ended: nat)

  class PowerController {
    const profile: Profile
    const timeout: nat
    const script: nat -> Process
    var log: seq<Call>
    var clock: nat
    var polls: nat
    ghost var spans: seq<Span>

    /** Every command of the log has run, and no two at the same time. */
    ghost predicate Valid()
      reads this
    {
      && |spans| == |log|
      && (forall i :: 0 <= i < |spans| ==> spans[i].begun <= spans[i].ended <= clock)
      && (forall i, j :: 0 <= i < j < |spans| ==> spans[i].ended <= spans[j].begun)
    }

    constructor (profile: Profile, timeout: nat, script: nat -> Process)
      ensures Valid() && this.profile == profile && this.timeout == timeout && log == []
    {
      this.profile, this.timeout, this.script := profile, timeout, script;
      log, clock, polls, spans := [], 0, 0, [];
    }

    /** The most iterations that a command started now can take. */
    ghost function Longest(deadline: nat): nat
      reads `clock
    {
      MAX_OUTPUT + Sleeps(clock, deadline) + 1
    }

    /** The clock is the one that the board's operations see. */
    method SyncTo(now: nat)
      requires Valid()
      modifies `clock
      ensures Valid() && clock == Max(old(clock), now)
    {
      clock := Max(clock, now);
    }

    method Issue(request: Request, deadline: nat, phase: string) returns (r: Result<Output>)
      requires Valid()
      modifies this
      ensures Valid() && spans == old(spans) + [Span(old(clock), clock)]
      ensures r.Err? ==> r.error.phase == phase && r.error.code in {CommandTimeout, OutputTruncated, PowerBackendFailed}
      ensures log == old(log) + [Call(request, deadline, r)]
      ensures old(clock) <= clock && polls <= old(polls) + old(Longest(deadline))
    {
      var run := RunPowerCommand(script(|log|), clock, deadline, phase);
      r := run.result;
      spans := spans + [Span(clock, run.clock)];
      clock := run.clock;
      polls := polls + run.iterations;
      log := log + [Call(request, deadline, r)];
    }

    /** Everything appended to the log since before ran under this deadline. */
    ghost predicate SharedDeadline(before: seq<Call>, deadline: nat)
      reads `log
    {
      forall i :: |before| <= i < |log| ==> log[i].deadline == deadline
    }

    /** Everything appended to the log since before ran after that time. */
    ghost predicate RanSince(before: seq<Call>, time: nat)
      reads `log, `spans
    {
      |spans| == |log| && forall i :: |before| <= i < |log| ==> time <= spans[i].begun
    }

    /** Every failure since then is reported under the phase of the command that failed. */
    ghost predicate Phased(before: seq<Call>)
      reads `log
    {
      forall i :: |before| <= i < |log| && log[i].answer.Err? ==>
        log[i].answer.error.phase ==
        match log[i].request
        case ReadState => "power_query"
        case ListNeighbors => "power_identity"
        case Change(_) => "power_change"
    }

    method PowerStateUntil(deadline: nat) returns (r: Result<PowerObservation>)
      requires Valid()
      modifies this
      ensures Valid() && RanSince(old(log), old(clock)) && old(spans) <= spans
      ensures r.Err? ==> r.error.code in {InvalidConfiguration, CommandTimeout, OutputTruncated, PowerBackendFailed}
      ensures Queried(profile, old(log), log)
      ensures SharedDeadline(old(log), deadline) && Phased(old(log))
      ensures r == Query(profile, log, |old(log)|).result
      ensures old(clock) <= clock && polls <= old(polls) + 2 * old(Longest(deadline))
    {
      if !profile.matter {
        return Err(Error(PowerBackendFailed, "power_query"));
      }
      var mac :- profile.identity;
      var output :- Issue(ReadState, deadline, "power_query");
      if !output.success {
        return Err(Error(PowerBackendFailed, "power_query"));
      }
      var verified := true;
      if mac.Some? {
        var neighbors :- Issue(ListNeighbors, deadline, "power_identity");
        verified := neighbors.success && Includes(Lower(neighbors.stdout), mac.value);
      }
      return Ok(PowerObservation(Reported(output), verified));
    }

    method SetPower(on: bool) returns (r: Result<PowerObservation>)
      requires Valid()
      modifies this
      ensures Valid() && RanSince(old(log), old(clock)) && old(spans) <= spans
      ensures r.Err? ==> r.error.code in {InvalidConfiguration, CommandTimeout, OutputTruncated, PowerBackendFailed,
                                          PowerIdentityMismatch, PowerStateUnverified}
      ensures Segment(profile, old(log), log, on)
      ensures SharedDeadline(old(log), old(clock) + timeout) && Phased(old(log))
      ensures r == Switch(profile, log, |old(log)|, on).result
      ensures old(clock) <= clock && polls <= old(polls) + 5 * old(Longest(clock + timeout))
    {
      hide Query, Switch, Follows, Accepted;
      var deadline := clock + timeout;
      ghost var l0 := log;
      var identified := PowerStateUntil(deadline);
      if identified.Err? || !identified.value.identityVerified {
        SwitchStops(profile, l0, log, on);
        return if identified.Err? then identified else Err(Error(PowerIdentityMismatch, "power_identity"));
      }
      ghost var l1 := log;
      var changed := Issue(Change(on), deadline, "power_change");
      if changed.Err? || !Accepted(changed.value) {
        SwitchFails(profile, l0, l1, log[|l1|], on);
        return if changed.Err? then changed.PropagateFailure() else Err(Error(PowerBackendFailed, "power_change"));
      }
      ghost var l2 := log;
      r := PowerStateUntil(deadline);
      SwitchCompletes(profile, l0, l1, l2[|l1|], log, on);
      if r.Ok? && r.value.state != (if on then On else Off) {
        r := Err(Error(PowerStateUnverified, "power_verify"));
      }
    }
  }
}
