/**
 Switching the relay through external commands whose answers cannot be trusted to be what was
 hoped for: verified identity before a change, a verifying read after it, and the power cycle.
 */
module Relay {
  import opened Basics
  import opened PowerCommand

  datatype RelayState = On | Off | Unclear

  datatype PowerObservation = PowerObservation(state: RelayState, identityVerified: bool)

  datatype Request = ReadState | ListNeighbors | Change(on: bool)

  /** One external command: what it asked, the deadline it ran under, and its answer. */
  datatype Call = Call(request: Request, deadline: nat, answer: Result<Output>)

  /** What the profile says: whether the backend is the one that exists, and whom it identifies. */
  datatype ProfileData = Profile(matter: bool, identity: Result<Option<Bytes>>)

  type Profile = p: ProfileData |
      p.identity.Err? ==> p.identity.error == Error(InvalidConfiguration, "power_identity")
    witness Profile(false, Ok(None))

  function Lower(text: Bytes): Bytes {
    seq(|text|, i requires 0 <= i < |text| => if 'A' <= text[i] <= 'Z' then (text[i] as int + 32) as char else text[i])
  }

  /** The state that the output of a read reports. */
  function Reported(output: Output): RelayState {
    var raw := output.stdout + output.stderr;
    if Includes(raw, "OnOff: TRUE") then On
    else if Includes(raw, "OnOff: FALSE") then Off
    else Unclear
  }

  predicate Accepted(output: Output) {
    output.success && Includes(output.stdout + output.stderr, "SUCCESS")
  }

  /** The answer of the i-th command of a log; a command beyond its end has failed. */
  function Answer(log: seq<Call>, i: nat): Result<Output> {
    if i < |log| then log[i].answer else Err(Error(PowerBackendFailed, ""))
  }

  /** What a step over the log concludes, and the commands it issued to get there. */
  datatype Trace<+T> = Trace(result: Result<T>, requests: seq<Request>)

  /** A status query, answered by the commands of the log from at on. */
  function Query(profile: Profile, log: seq<Call>, at: nat): Trace<PowerObservation> {
    if !profile.matter then Trace(Err(Error(PowerBackendFailed, "power_query")), [])
    else if profile.identity.Err? then Trace(profile.identity.PropagateFailure(), [])
    else
      match Answer(log, at)
      case Err(error) => Trace(Err(error), [ReadState])
      case Ok(output) =>
        if !output.success then Trace(Err(Error(PowerBackendFailed, "power_query")), [ReadState])
        else if profile.identity.value.None? then Trace(Ok(PowerObservation(Reported(output), true)), [ReadState])
        else
          match Answer(log, at + 1)
          case Err(error) => Trace(Err(error), [ReadState, ListNeighbors])
          case Ok(neighbors) =>
            var verified := neighbors.success && Includes(Lower(neighbors.stdout), profile.identity.value.value);
            Trace(Ok(PowerObservation(Reported(output), verified)), [ReadState, ListNeighbors])
  }

  /** A relay change with its identity check and its verifying read. */
  function Switch(profile: Profile, log: seq<Call>, at: nat, on: bool): Trace<PowerObservation> {
    var before := Query(profile, log, at);
    if before.result.Err? then before
    else if !before.result.value.identityVerified then
      Trace(Err(Error(PowerIdentityMismatch, "power_identity")), before.requests)
    else
      var issued := before.requests + [Change(on)];
      match Answer(log, at + |before.requests|)
      case Err(error) => Trace(Err(error), issued)
      case Ok(output) =>
        if !Accepted(output) then Trace(Err(Error(PowerBackendFailed, "power_change")), issued)
        else
          var after := Query(profile, log, at + |issued|);
          if after.result.Err? then Trace(after.result, issued + after.requests)
          else if after.result.value.state != (if on then On else Off) then
            Trace(Err(Error(PowerStateUnverified, "power_verify")), issued + after.requests)
          else Trace(after.result, issued + after.requests)
  }

  /** A power cycle: two changes, or three if the relay does not go on at once. */
  function PowerCycle(profile: Profile, log: seq<Call>, at: nat, confirmed: bool): Trace<PowerObservation> {
    if !confirmed then Trace(Err(Error(ConfirmationRequired, "confirmation")), [])
    else
      var off := Switch(profile, log, at, false);
      if off.result.Err? then off
      else
        var on := Switch(profile, log, at + |off.requests|, true);
        if on.result.Ok? then Trace(on.result, off.requests + on.requests)
        else
          var again := Switch(profile, log, at + |off.requests| + |on.requests|, true);
          Trace(on.result, off.requests + on.requests + again.requests)
  }

  /** The log from at on holds exactly the commands of a step. */
  ghost predicate Follows(log: seq<Call>, at: nat, requests: seq<Request>) {
    && at + |requests| <= |log|
    && (forall k :: at <= k < at + |requests| ==> log[k].request == requests[k - at])
  }

  lemma FollowsBoth(log: seq<Call>, at: nat, first: seq<Request>, second: seq<Request>)
    requires Follows(log, at, first + second)
    ensures Follows(log, at, first) && Follows(log, at + |first|, second)
  {
  }

  lemma ChangeAlone(log: seq<Call>, c: nat, on: bool)
    requires Follows(log, c, [Change(on)])
    ensures c < |log| && log[c].request == Change(on)
  {
  }

  /** What a step concluded from its own commands does not depend on what was logged later. */
  lemma QueryStable(profile: Profile, log: seq<Call>, later: seq<Call>, at: nat)
    requires log <= later && Follows(log, at, Query(profile, log, at).requests)
    ensures Query(profile, later, at) == Query(profile, log, at)
  {
  }

  lemma SwitchStable(profile: Profile, log: seq<Call>, later: seq<Call>, at: nat, on: bool)
    requires log <= later && Follows(log, at, Switch(profile, log, at, on).requests)
    ensures Switch(profile, later, at, on) == Switch(profile, log, at, on)
  {
    hide Query, Follows, Accepted;
    var before := Query(profile, log, at);
    var c := at + |before.requests|;
    if before.result.Ok? && before.result.value.identityVerified {
      if Answer(log, c).Ok? && Accepted(Answer(log, c).value) {
        var after := Query(profile, log, c + 1).requests;
        FollowsBoth(log, at, before.requests + [Change(on)], after);
        QueryStable(profile, log, later, c + 1);
      }
      FollowsBoth(log, at, before.requests, [Change(on)]);
      ChangeAlone(log, c, on);
    }
    QueryStable(profile, log, later, at);
  }

  /** after is before with the commands of one relay change appended. */
  ghost predicate Segment(profile: Profile, before: seq<Call>, after: seq<Call>, on: bool) {
    var requests := Switch(profile, after, |before|, on).requests;
    before <= after && |after| == |before| + |requests| && Follows(after, |before|, requests)
  }

  /** after is before with the commands of one power cycle appended. */
  ghost predicate Cycled(profile: Profile, before: seq<Call>, after: seq<Call>, confirmed: bool) {
    var requests := PowerCycle(profile, after, |before|, confirmed).requests;
    before <= after && |after| == |before| + |requests| && Follows(after, |before|, requests)
  }

  lemma SegmentStable(profile: Profile, before: seq<Call>, after: seq<Call>, later: seq<Call>, on: bool)
    requires Segment(profile, before, after, on) && after <= later
    ensures Switch(profile, later, |before|, on) == Switch(profile, after, |before|, on)
    ensures Follows(later, |before|, Switch(profile, later, |before|, on).requests)
  {
    SwitchStable(profile, after, later, |before|, on);
  }

  lemma FollowsJoin(log: seq<Call>, at: nat, first: seq<Request>, second: seq<Request>)
    requires Follows(log, at, first) && Follows(log, at + |first|, second)
    ensures Follows(log, at, first + second)
  {
  }

  lemma SegmentExtends(profile: Profile, before: seq<Call>, after: seq<Call>, on: bool)
    requires Segment(profile, before, after, on)
    ensures before <= after
  {
  }

  lemma CycleStops(profile: Profile, l0: seq<Call>, l1: seq<Call>)
    requires Segment(profile, l0, l1, false) && Switch(profile, l1, |l0|, false).result.Err?
    ensures Cycled(profile, l0, l1, true)
    ensures PowerCycle(profile, l1, |l0|, true).result == Switch(profile, l1, |l0|, false).result
  {
    hide Switch, Follows;
  }

  lemma CycleSucceeds(profile: Profile, l0: seq<Call>, l1: seq<Call>, l2: seq<Call>)
    requires Segment(profile, l0, l1, false) && Switch(profile, l1, |l0|, false).result.Ok?
    requires Segment(profile, l1, l2, true) && Switch(profile, l2, |l1|, true).result.Ok?
    ensures Cycled(profile, l0, l2, true)
    ensures PowerCycle(profile, l2, |l0|, true).result == Switch(profile, l2, |l1|, true).result
  {
    hide Switch, Follows;
    SegmentStable(profile, l0, l1, l2, false);
    FollowsJoin(l2, |l0|, Switch(profile, l2, |l0|, false).requests, Switch(profile, l2, |l1|, true).requests);
  }

  lemma CycleRetries(profile: Profile, l0: seq<Call>, l1: seq<Call>, l2: seq<Call>, l3: seq<Call>)
    requires Segment(profile, l0, l1, false) && Switch(profile, l1, |l0|, false).result.Ok?
    requires Segment(profile, l1, l2, true) && Switch(profile, l2, |l1|, true).result.Err?
    requires Segment(profile, l2, l3, true)
    ensures Cycled(profile, l0, l3, true)
    ensures PowerCycle(profile, l3, |l0|, true).result == Switch(profile, l2, |l1|, true).result
  {
    hide Switch, Follows;
    SegmentStable(profile, l0, l1, l3, false);
    SegmentStable(profile, l1, l2, l3, true);
    var off := Switch(profile, l3, |l0|, false).requests;
    var on := Switch(profile, l3, |l1|, true).requests;
    FollowsJoin(l3, |l0|, off, on);
    FollowsJoin(l3, |l0|, off + on, Switch(profile, l3, |l2|, true).requests);
  }

  /** after is before with the commands of one status query appended. */
  ghost predicate Queried(profile: Profile, before: seq<Call>, after: seq<Call>) {
    var requests := Query(profile, after, |before|).requests;
    before <= after && |after| == |before| + |requests| && Follows(after, |before|, requests)
  }

  /** An identity check that fails ends a relay change. */
  lemma SwitchStops(profile: Profile, l0: seq<Call>, l1: seq<Call>, on: bool)
    requires Queried(profile, l0, l1)
    requires
      var before := Query(profile, l1, |l0|).result;
      before.Err? || !before.value.identityVerified
    ensures Segment(profile, l0, l1, on)
    ensures
      var before := Query(profile, l1, |l0|).result;
      Switch(profile, l1, |l0|, on).result ==
      if before.Err? then before else Err(Error(PowerIdentityMismatch, "power_identity"))
  {
    hide Query, Follows;
  }

  ghost predicate Checked(profile: Profile, l0: seq<Call>, l1: seq<Call>) {
    && Queried(profile, l0, l1)
    && Query(profile, l1, |l0|).result.Ok?
    && Query(profile, l1, |l0|).result.value.identityVerified
  }

  lemma FollowsLater(log: seq<Call>, later: seq<Call>, at: nat, requests: seq<Request>)
    requires log <= later && Follows(log, at, requests)
    ensures Follows(later, at, requests)
  {
  }

  /** So does a change that the backend does not accept. */
  lemma SwitchFails(profile: Profile, l0: seq<Call>, l1: seq<Call>, call: Call, on: bool)
    requires Checked(profile, l0, l1) && call.request == Change(on)
    requires call.answer.Err? || !Accepted(call.answer.value)
    ensures Segment(profile, l0, l1 + [call], on)
    ensures
      Switch(profile, l1 + [call], |l0|, on).result ==
      if call.answer.Err? then Err(call.answer.error) else Err(Error(PowerBackendFailed, "power_change"))
  {
    QueryStable(profile, l1, l1 + [call], |l0|);
    FollowsLater(l1, l1 + [call], |l0|, Query(profile, l1, |l0|).requests);
    assert Follows(l1 + [call], |l1|, [Change(on)]);
    hide Query, Follows;
    FollowsJoin(l1 + [call], |l0|, Query(profile, l1, |l0|).requests, [Change(on)]);
  }

  lemma SwitchAfterChange(profile: Profile, log: seq<Call>, at: nat, on: bool)
    requires
      var before := Query(profile, log, at);
      var answer := Answer(log, at + |before.requests|);
      before.result.Ok? && before.result.value.identityVerified && answer.Ok? && Accepted(answer.value)
    ensures
      var before := Query(profile, log, at).requests;
      var after := Query(profile, log, at + |before| + 1);
      Switch(profile, log, at, on) ==
      Trace(
        if after.result.Ok? && after.result.value.state != (if on then On else Off)
        then Err(Error(PowerStateUnverified, "power_verify")) else after.result,
        before + [Change(on)] + after.requests)
  {
    hide Query, Accepted;
  }

  lemma CallFollows(log: seq<Call>, call: Call, later: seq<Call>)
    requires log + [call] <= later
    ensures Answer(later, |log|) == call.answer && Follows(later, |log|, [call.request])
  {
    assert later[|log|] == call;
  }

  /** Otherwise the verifying read decides. */
  lemma SwitchCompletes(profile: Profile, l0: seq<Call>, l1: seq<Call>, call: Call, l3: seq<Call>, on: bool)
    requires Checked(profile, l0, l1) && call.request == Change(on)
    requires call.answer.Ok? && Accepted(call.answer.value)
    requires Queried(profile, l1 + [call], l3)
    ensures Segment(profile, l0, l3, on)
    ensures
      var after := Query(profile, l3, |l1| + 1).result;
      Switch(profile, l3, |l0|, on).result ==
      if after.Ok? && after.value.state != (if on then On else Off)
      then Err(Error(PowerStateUnverified, "power_verify")) else after
  {
    hide Query, Follows, Switch, Accepted;
    QueryStable(profile, l1, l3, |l0|);
    var before := Query(profile, l1, |l0|).requests;
    var after := Query(profile, l3, |l1| + 1).requests;
    FollowsLater(l1, l3, |l0|, before);
    CallFollows(l1, call, l3);
    SwitchAfterChange(profile, l3, |l0|, on);
    FollowsJoin(l3, |l0|, before, [Change(on)]);
    FollowsJoin(l3, |l0|, before + [Change(on)], after);
  }

  /** Success takes at least one command and shows the requested state. */
  lemma SwitchOk(profile: Profile, log: seq<Call>, at: nat, on: bool)
    requires Switch(profile, log, at, on).result.Ok?
    ensures Switch(profile, log, at, on).result.value.state == (if on then On else Off)
    ensures Switch(profile, log, at, on).requests != []
  {
  }

  // ---- One command after the other ----

  /** longer begins with the first n of shorter. */
  predicate Agree(shorter: seq<Request>, longer: seq<Request>, n: nat) {
    n <= |shorter| && n <= |longer| && shorter[..n] == longer[..n]
  }

  /** Answering the command that is due changes nothing of what was issued up to it; otherwise nothing changes at all. */
  lemma QueryGrows(profile: Profile, log: seq<Call>, call: Call, at: nat)
    requires at <= |log|
    ensures
      var n := |log| - at;
      var q, q' := Query(profile, log, at), Query(profile, log + [call], at);
      if n < |q.requests| then q.result.Err? && Agree(q.requests, q'.requests, n + 1) else q' == q
  {
  }

  lemma AgreeJoin(prefix: seq<Request>, shorter: seq<Request>, longer: seq<Request>, n: nat)
    requires Agree(shorter, longer, n)
    ensures Agree(prefix + shorter, prefix + longer, |prefix| + n)
  {
    assert (prefix + shorter)[..|prefix| + n] == prefix + shorter[..n];
    assert (prefix + longer)[..|prefix| + n] == prefix + longer[..n];
  }

  lemma AgreeExtend(shorter: seq<Request>, longer: seq<Request>, rest: seq<Request>, n: nat)
    requires Agree(shorter, longer, n)
    ensures Agree(shorter, longer + rest, n)
  {
    assert (longer + rest)[..n] == longer[..n];
  }

  lemma QueryBeginsSwitch(profile: Profile, log: seq<Call>, at: nat, on: bool) returns (rest: seq<Request>)
    ensures Switch(profile, log, at, on).requests == Query(profile, log, at).requests + rest
    ensures Query(profile, log, at).result.Err? ==> rest == []
  {
    hide Query, Accepted;
    var before := Query(profile, log, at).requests;
    rest := Switch(profile, log, at, on).requests[|before|..];
  }

  /** While the change itself is due, it is the last command. */
  lemma ChangeGrows(profile: Profile, log: seq<Call>, call: Call, at: nat, on: bool)
    requires at <= |log| && |log| - at == |Query(profile, log, at).requests|
    requires |log| - at < |Switch(profile, log, at, on).requests|
    ensures
      Agree(Switch(profile, log, at, on).requests, Switch(profile, log + [call], at, on).requests, |log| - at + 1)
  {
    QueryGrows(profile, log, call, at);
    hide Query, Accepted;
  }

  lemma VerificationGrows(profile: Profile, log: seq<Call>, call: Call, at: nat, on: bool)
    requires at <= |log| && |Query(profile, log, at).requests| < |log| - at < |Switch(profile, log, at, on).requests|
    ensures
      Agree(Switch(profile, log, at, on).requests, Switch(profile, log + [call], at, on).requests, |log| - at + 1)
  {
    hide Query, Accepted, Agree;
    var before := Query(profile, log, at).requests;
    var c := at + |before|;
    QueryGrows(profile, log, call, at);
    assert Answer(log + [call], c) == Answer(log, c);
    QueryGrows(profile, log, call, c + 1);
    SwitchAfterChange(profile, log, at, on);
    SwitchAfterChange(profile, log + [call], at, on);
    hide Switch;
    var after, after' := Query(profile, log, c + 1), Query(profile, log + [call], c + 1);
    AgreeJoin(before + [Change(on)], after.requests, after'.requests, |log| - c);
  }

  lemma SwitchGrows(profile: Profile, log: seq<Call>, call: Call, at: nat, on: bool)
    requires at <= |log| && |log| - at < |Switch(profile, log, at, on).requests|
    ensures
      Agree(Switch(profile, log, at, on).requests, Switch(profile, log + [call], at, on).requests, |log| - at + 1)
  {
    hide Switch, Query, Agree;
    var n := |log| - at;
    var before := Query(profile, log, at).requests;
    if n < |before| {
      QueryGrows(profile, log, call, at);
      var none := QueryBeginsSwitch(profile, log, at, on);
      var rest := QueryBeginsSwitch(profile, log + [call], at, on);
      assert Switch(profile, log, at, on).requests == before;
      AgreeExtend(before, Query(profile, log + [call], at).requests, rest, n + 1);
    } else if n == |before| {
      ChangeGrows(profile, log, call, at, on);
    } else {
      VerificationGrows(profile, log, call, at, on);
    }
  }

  // ---- What a log of commands shows ----

  /** What the text of an answer says about the relay: on wins over off. */
  ghost predicate Says(output: Output, state: RelayState) {
    var raw := output.stdout + output.stderr;
    match state
    case On => Contains(raw, "OnOff: TRUE")
    case Off => Contains(raw, "OnOff: FALSE") && !Contains(raw, "OnOff: TRUE")
    case Unclear => !Contains(raw, "OnOff: TRUE") && !Contains(raw, "OnOff: FALSE")
  }

  /** The state reported is the one that the text says, and it says no other. */
  lemma ReportedMeaning(output: Output, state: RelayState)
    ensures Reported(output) == state <==> Says(output, state)
  {
    var raw := output.stdout + output.stderr;
    RFindMeaning(raw, "OnOff: TRUE");
    RFindMeaning(raw, "OnOff: FALSE");
  }

  ghost predicate SaysSuccess(output: Output) {
    output.success && Contains(output.stdout + output.stderr, "SUCCESS")
  }

  lemma AcceptedMeaning(output: Output)
    ensures Accepted(output) <==> SaysSuccess(output)
  {
    RFindMeaning(output.stdout + output.stderr, "SUCCESS");
  }

  /** b is a with ASCII case folded. */
  ghost predicate FoldsTo(a: Byte, b: Byte) {
    if 'A' <= a <= 'Z' then b as int == a as int + 32 else b == a
  }

  ghost predicate ListedAt(text: Bytes, device: Bytes, at: nat) {
    at + |device| <= |text| && forall k :: 0 <= k < |device| ==> FoldsTo(text[at + k], device[k])
  }

  ghost predicate Lists(text: Bytes, device: Bytes) {
    exists at: nat :: ListedAt(text, device, at)
  }

  lemma FoldedOccurrence(text: Bytes, device: Bytes, at: nat)
    ensures OccursAt(Lower(text), device, at) <==> ListedAt(text, device, at)
  {
    var lower := Lower(text);
    if at + |device| <= |text| {
      var part := lower[at..at + |device|];
      assert forall k :: 0 <= k < |device| ==> part[k] == lower[at + k];
      assert forall k :: 0 <= k < |device| ==> (lower[at + k] == device[k] <==> FoldsTo(text[at + k], device[k]));
    }
  }

  /** Searching the folded text finds the device wherever it is listed, whatever its case there. */
  lemma LowerMeaning(text: Bytes, device: Bytes)
    ensures Includes(Lower(text), device) <==> Lists(text, device)
  {
    RFindMeaning(Lower(text), device);
    hide Lower, ListedAt, OccursAt;
    forall at: nat
      ensures OccursAt(Lower(text), device, at) <==> ListedAt(text, device, at)
    {
      FoldedOccurrence(text, device, at);
    }
  }

  /** A read that succeeded, and what its text says. */
  ghost predicate ReadAs(call: Call, state: RelayState) {
    call.request == ReadState && call.answer.Ok? && call.answer.value.success && Says(call.answer.value, state)
  }

  /** A list of neighbors that contains this device. */
  ghost predicate Recognizes(call: Call, device: Bytes) {
    && call.request == ListNeighbors && call.answer.Ok? && call.answer.value.success
    && Lists(call.answer.value.stdout, device)
  }

  /** A read succeeded between from and to and, if the profile names a device, the device was then seen. */
  ghost predicate IdentityConfirmed(profile: Profile, log: seq<Call>, from: nat, to: nat) {
    && profile.identity.Ok?
    && to <= |log|
    && exists j :: from <= j < to
         && log[j].request == ReadState && log[j].answer.Ok? && log[j].answer.value.success
         && (profile.identity.value.Some? ==> j + 1 < to && Recognizes(log[j + 1], profile.identity.value.value))
  }

  /** The read that begins a query was issued and succeeded. */
  ghost predicate ReadSucceeded(profile: Profile, log: seq<Call>, at: nat) {
    && profile.matter && profile.identity.Ok?
    && at < |log| && log[at].answer.Ok? && log[at].answer.value.success
  }

  /** Whether a query succeeds, and with what, by the commands it issued and the texts of their answers. */
  lemma QueryMeaning(profile: Profile, log: seq<Call>, at: nat)
    requires Follows(log, at, Query(profile, log, at).requests)
    ensures
      var q := Query(profile, log, at);
      var named := profile.identity.Ok? && profile.identity.value.Some?;
      && |q.requests| ==
         (if !profile.matter || profile.identity.Err? then 0 else if ReadSucceeded(profile, log, at) && named then 2 else 1)
      && (|q.requests| >= 1 ==> log[at].request == ReadState)
      && (|q.requests| == 2 ==> log[at + 1].request == ListNeighbors)
      && (q.result.Ok? <==> ReadSucceeded(profile, log, at) && (named ==> log[at + 1].answer.Ok?))
      && (q.result.Ok? ==>
            && ReadAs(log[at], q.result.value.state)
            && (q.result.value.identityVerified <==> !named || Recognizes(log[at + 1], profile.identity.value.value)))
      && (q.result.Err? ==>
            q.result.error ==
            if !profile.matter then Error(PowerBackendFailed, "power_query")
            else if profile.identity.Err? then Error(InvalidConfiguration, "power_identity")
            else if log[at].answer.Err? then log[at].answer.error
            else if !log[at].answer.value.success then Error(PowerBackendFailed, "power_query")
            else log[at + 1].answer.error)
  {
    if ReadSucceeded(profile, log, at) {
      ReportedMeaning(log[at].answer.value, Reported(log[at].answer.value));
      if profile.identity.value.Some? && log[at + 1].answer.Ok? {
        LowerMeaning(log[at + 1].answer.value.stdout, profile.identity.value.value);
      }
    }
    hide Reported, Says, Lower, Lists, Includes;
  }

  lemma QueryFollows(profile: Profile, log: seq<Call>, at: nat)
    requires Follows(log, at, Query(profile, log, at).requests)
    ensures
      var q := Query(profile, log, at);
      && (forall k :: at <= k < at + |q.requests| ==> !log[k].request.Change?)
      && (q.result.Ok? ==> |q.requests| >= 1 && ReadAs(log[at], q.result.value.state))
      && (forall k :: at < k < at + |q.requests| ==> log[k].request == ListNeighbors)
      && (q.result.Ok? && q.result.value.identityVerified ==> IdentityConfirmed(profile, log, at, at + |q.requests|))
  {
    QueryMeaning(profile, log, at);
    hide Query, ReadAs, Recognizes;
  }

  /**
   Whatever the backend answers, the relay is told to change at most once, only to the requested
   state, and only after the identity was confirmed in the same call.
   */
  lemma ChangeNeedsIdentity(profile: Profile, log: seq<Call>, at: nat, on: bool, k: nat)
    requires Follows(log, at, Switch(profile, log, at, on).requests)
    requires at <= k < at + |Switch(profile, log, at, on).requests| && log[k].request.Change?
    ensures log[k].request == Change(on)
    ensures IdentityConfirmed(profile, log, at, k)
    ensures forall j :: at <= j < at + |Switch(profile, log, at, on).requests| && log[j].request.Change? ==> j == k
  {
    SwitchChangesOnce(profile, log, at, on);
  }

  lemma SwitchChangesOnce(profile: Profile, log: seq<Call>, at: nat, on: bool)
    requires Follows(log, at, Switch(profile, log, at, on).requests)
    ensures
      var c := at + |Query(profile, log, at).requests|;
      forall k :: at <= k < at + |Switch(profile, log, at, on).requests| && log[k].request.Change? ==>
        k == c && log[c].request == Change(on) && IdentityConfirmed(profile, log, at, c)
  {
    hide Query, Follows, IdentityConfirmed, Accepted;
    var before := Query(profile, log, at);
    var c := at + |before.requests|;
    if before.result.Err? || !before.result.value.identityVerified {
      QueryFollows(profile, log, at);
    } else {
      if Answer(log, c).Ok? && Accepted(Answer(log, c).value) {
        var after := Query(profile, log, c + 1).requests;
        FollowsBoth(log, at, before.requests + [Change(on)], after);
        QueryFollows(profile, log, c + 1);
      }
      FollowsBoth(log, at, before.requests, [Change(on)]);
      QueryFollows(profile, log, at);
      ChangeAlone(log, c, on);
    }
  }

  /** How a change that was issued at c ends: its answer fails, or refuses it, or the last query decides. */
  ghost predicate ChangeEnds(profile: Profile, log: seq<Call>, on: bool, c: nat, r: Result<PowerObservation>) {
    && c < |log| && log[c].request == Change(on)
    && if log[c].answer.Err? then
         |log| == c + 1 && r.Err? && r.error == log[c].answer.error
       else if !SaysSuccess(log[c].answer.value) then
         |log| == c + 1 && r == Err(Error(PowerBackendFailed, "power_change"))
       else
         Queried(profile, log[..c + 1], log) && VerificationEnds(Query(profile, log, c + 1).result, on, r)
  }

  ghost predicate VerificationEnds(last: Result<PowerObservation>, on: bool, r: Result<PowerObservation>) {
    if last.Err? || last.value.state == (if on then On else Off) then r == last
    else r == Err(Error(PowerStateUnverified, "power_verify"))
  }

  lemma ChangeIsDecided(profile: Profile, before: seq<Call>, after: seq<Call>, on: bool, c: nat)
    requires Segment(profile, before, after, on)
    requires
      var first := Query(profile, after, |before|);
      first.result.Ok? && first.result.value.identityVerified && c == |before| + |first.requests|
    ensures ChangeEnds(profile, after, on, c, Switch(profile, after, |before|, on).result)
  {
    hide Query, Accepted, SaysSuccess, Follows;
    var at := |before|;
    var first := Query(profile, after, at).requests;
    if Answer(after, c).Ok? { AcceptedMeaning(Answer(after, c).value); }
    if Answer(after, c).Ok? && Accepted(Answer(after, c).value) {
      SwitchAfterChange(profile, after, at, on);
      hide Switch;
      var last := Query(profile, after, c + 1).requests;
      FollowsBoth(after, at, first + [Change(on)], last);
      FollowsBoth(after, at, first, [Change(on)]);
      assert |after[..c + 1]| == c + 1;
    } else {
      FollowsBoth(after, at, first, [Change(on)]);
    }
    ChangeAlone(after, c, on);
  }

  /** How a relay change ends, by the causes that its own commands show. c is where its first query ended. */
  lemma SwitchMeaning(profile: Profile, before: seq<Call>, after: seq<Call>, on: bool) returns (c: nat)
    requires Segment(profile, before, after, on)
    ensures |before| <= c <= |after| && Queried(profile, before, after[..c])
    ensures
      var first := Query(profile, after, |before|).result;
      var r := Switch(profile, after, |before|, on).result;
      if first.Err? then c == |after| && r == first
      else if !first.value.identityVerified then
        c == |after| && r == Err(Error(PowerIdentityMismatch, "power_identity"))
      else ChangeEnds(profile, after, on, c, r)
  {
    var at := |before|;
    var first := Query(profile, after, at);
    c := at + |first.requests|;
    hide Query, Accepted, SaysSuccess, Follows, ChangeEnds;
    var requests := Switch(profile, after, at, on).requests;
    assert first.requests <= requests by { var rest := QueryBeginsSwitch(profile, after, at, on); }
    PrefixFollows(after, at, first.requests, requests);
    assert after[..at] == before;
    QueryOfPrefix(profile, after, at, c);
    if first.result.Ok? && first.result.value.identityVerified {
      hide Switch;
      ChangeIsDecided(profile, before, after, on, c);
    }
  }

  lemma PrefixFollows(log: seq<Call>, at: nat, first: seq<Request>, requests: seq<Request>)
    requires Follows(log, at, requests) && first <= requests
    ensures at + |first| <= |log| && Follows(log, at, first)
  {
  }

  lemma QueryOfPrefix(profile: Profile, log: seq<Call>, at: nat, c: nat)
    requires at + |Query(profile, log, at).requests| == c <= |log|
    requires Follows(log, at, Query(profile, log, at).requests)
    ensures Queried(profile, log[..at], log[..c])
  {
    assert |log[..at]| == at && log[..at] <= log[..c];
  }

  /** The relay accepted a change at c, and the read at j, after which nothing but neighbors was asked, showed it. */
  ghost predicate Switched(log: seq<Call>, from: nat, to: nat, on: bool, c: nat, j: nat) {
    && from <= c < j < to <= |log|
    && log[c].request == Change(on) && log[c].answer.Ok? && SaysSuccess(log[c].answer.value)
    && ReadAs(log[j], if on then On else Off)
    && (forall i :: j < i < to ==> log[i].request == ListNeighbors)
  }

  ghost predicate SwitchedWithin(log: seq<Call>, from: nat, to: nat, on: bool) {
    exists c, j :: Switched(log, from, to, on, c, j)
  }

  /** Success means that the backend accepted the change and the last read showed the requested state. */
  lemma OkMeansSwitched(profile: Profile, log: seq<Call>, at: nat, on: bool)
    requires Follows(log, at, Switch(profile, log, at, on).requests)
    requires Switch(profile, log, at, on).result.Ok?
    ensures
      var s := Switch(profile, log, at, on);
      var end := at + |s.requests|;
      && s.result.value.state == (if on then On else Off)
      && SwitchedWithin(log, at, end, on)
  {
    hide Query, Follows;
    var before := Query(profile, log, at);
    var c := at + |before.requests|;
    var after := Query(profile, log, c + 1);
    var requests := Switch(profile, log, at, on).requests;
    assert requests == before.requests + ([Change(on)] + after.requests);
    FollowsBoth(log, at, before.requests, [Change(on)] + after.requests);
    FollowsBoth(log, c, [Change(on)], after.requests);
    ChangeAlone(log, c, on);
    QueryFollows(profile, log, c + 1);
    AcceptedMeaning(log[c].answer.value);
    assert Switched(log, at, at + |requests|, on, c, c + 1);
  }

  /** A successful power cycle saw the relay off after switching it off, then on after switching it on. */
  lemma OkCycleWentOffAndOn(profile: Profile, log: seq<Call>, at: nat, confirmed: bool)
    requires Follows(log, at, PowerCycle(profile, log, at, confirmed).requests)
    requires PowerCycle(profile, log, at, confirmed).result.Ok?
    ensures
      var mid := at + |Switch(profile, log, at, false).requests|;
      var end := at + |PowerCycle(profile, log, at, confirmed).requests|;
      && PowerCycle(profile, log, at, confirmed).result.value.state == On
      && SwitchedWithin(log, at, mid, false)
      && SwitchedWithin(log, mid, end, true)
  {
    hide Switch, SwitchedWithin, Follows;
    var off := Switch(profile, log, at, false);
    var mid := at + |off.requests|;
    var on := Switch(profile, log, mid, true);
    FollowsBoth(log, at, off.requests, on.requests);
    OkMeansSwitched(profile, log, at, false);
    OkMeansSwitched(profile, log, mid, true);
  }

  /** A status query succeeded and the identity was verified. */
  ghost predicate Confirms(profile: Profile, log: seq<Call>, at: nat) {
    var q := Query(profile, log, at);
    q.result.Ok? && q.result.value.identityVerified
  }

  /** An attempt to switch: the relay is queried, and told to change if that confirms its identity; nothing else is changed. */
  ghost predicate TriesToSwitch(profile: Profile, log: seq<Call>, from: nat, to: nat, on: bool) {
    && from < to <= |log|
    && log[from].request == ReadState
    && (Confirms(profile, log, from) ==>
          var c := from + |Query(profile, log, from).requests|;
          c < to && log[c].request == Change(on))
    && (forall k :: from <= k < to && log[k].request.Change? ==> log[k].request == Change(on))
  }

  lemma SwitchTries(profile: Profile, log: seq<Call>, at: nat, on: bool)
    requires profile.matter && profile.identity.Ok?
    requires Follows(log, at, Switch(profile, log, at, on).requests)
    ensures TriesToSwitch(profile, log, at, at + |Switch(profile, log, at, on).requests|, on)
  {
    SwitchChangesOnce(profile, log, at, on);
    QueryStartsWithRead(profile, log, at);
    hide Query, Accepted;
    var before := Query(profile, log, at).requests;
    var requests := Switch(profile, log, at, on).requests;
    assert requests[0] == before[0] == ReadState;
    if Confirms(profile, log, at) {
      assert requests[|before|] == Change(on);
    }
  }

  lemma QueryStartsWithRead(profile: Profile, log: seq<Call>, at: nat)
    requires profile.matter && profile.identity.Ok?
    ensures |Query(profile, log, at).requests| >= 1 && Query(profile, log, at).requests[0] == ReadState
  {
  }

  lemma OkNeedsBackend(profile: Profile, log: seq<Call>, at: nat)
    requires Query(profile, log, at).result.Ok?
    ensures profile.matter && profile.identity.Ok?
  {
  }

  lemma CycleAfterOff(profile: Profile, log: seq<Call>, at: nat)
    requires Switch(profile, log, at, false).result.Ok?
    ensures
      var cycle := PowerCycle(profile, log, at, true);
      var off := Switch(profile, log, at, false).requests;
      var on := Switch(profile, log, at + |off|, true);
      && cycle.result == on.result
      && cycle.requests ==
         if on.result.Ok? then off + on.requests
         else off + on.requests + Switch(profile, log, at + |off| + |on.requests|, true).requests
  {
    hide Switch;
  }

  lemma SwitchNeedsBackend(profile: Profile, log: seq<Call>, at: nat, on: bool)
    requires Switch(profile, log, at, on).result.Ok?
    ensures profile.matter && profile.identity.Ok?
  {
    OkNeedsBackend(profile, log, at);
    hide Query;
  }

  /**
   Once a power cycle has a verified off, it tries to switch on, and once more exactly if that fails.
   The first attempt decides the result.
   */
  lemma VerifiedOffIsRestored(profile: Profile, log: seq<Call>, at: nat)
    requires Follows(log, at, PowerCycle(profile, log, at, true).requests)
    requires Switch(profile, log, at, false).result.Ok?
    ensures
      var cycle := PowerCycle(profile, log, at, true);
      var end := at + |cycle.requests|;
      var mid := at + |Switch(profile, log, at, false).requests|;
      var on := Switch(profile, log, mid, true);
      var next := mid + |on.requests|;
      && cycle.result == on.result
      && TriesToSwitch(profile, log, mid, next, true)
      && if on.result.Ok? then end == next else TriesToSwitch(profile, log, next, end, true)
  {
    hide *;
    SwitchNeedsBackend(profile, log, at, false);
    CycleAfterOff(profile, log, at);
    var off := Switch(profile, log, at, false).requests;
    var mid := at + |off|;
    var on := Switch(profile, log, mid, true);
    var next := mid + |on.requests|;
    if on.result.Ok? {
      FollowsBoth(log, at, off, on.requests);
    } else {
      var again := Switch(profile, log, next, true).requests;
      FollowsBoth(log, at, off + on.requests, again);
      FollowsBoth(log, at, off, on.requests);
      SwitchTries(profile, log, next, true);
    }
    SwitchTries(profile, log, mid, true);
  }

  /** The identity was confirmed since from, and the relay has not been told to change since then. */
  ghost predicate ConfirmedSince(profile: Profile, log: seq<Call>, from: nat, to: nat) {
    IdentityConfirmed(profile, log, from, to) && forall j :: from <= j < to ==> !log[j].request.Change?
  }

  lemma SwitchConfirms(profile: Profile, log: seq<Call>, at: nat, on: bool, k: nat)
    requires Follows(log, at, Switch(profile, log, at, on).requests)
    requires at <= k < at + |Switch(profile, log, at, on).requests| && log[k].request.Change?
    ensures ConfirmedSince(profile, log, at, k)
  {
    ChangeNeedsIdentity(profile, log, at, on, k);
  }

  /** In a whole power cycle, every change of the relay follows a confirmation of its own, with no other change between. */
  lemma CycleNeedsIdentity(profile: Profile, log: seq<Call>, at: nat, confirmed: bool, k: nat)
    requires Follows(log, at, PowerCycle(profile, log, at, confirmed).requests)
    requires at <= k < at + |PowerCycle(profile, log, at, confirmed).requests| && log[k].request.Change?
    ensures exists from :: at <= from <= k && ConfirmedSince(profile, log, from, k)
  {
    hide Switch, Follows, ConfirmedSince;
    var off := Switch(profile, log, at, false);
    var mid := at + |off.requests|;
    var on := Switch(profile, log, mid, true);
    var next := mid + |on.requests|;
    if off.result.Ok? && on.result.Ok? {
      FollowsBoth(log, at, off.requests, on.requests);
    } else if off.result.Ok? {
      FollowsBoth(log, at, off.requests + on.requests, Switch(profile, log, next, true).requests);
      FollowsBoth(log, at, off.requests, on.requests);
    }
    if k < mid {
      SwitchConfirms(profile, log, at, false, k);
    } else if k < next {
      SwitchConfirms(profile, log, mid, true, k);
    } else {
      SwitchConfirms(profile, log, next, true, k);
    }
  }

  /** The off command of a power cycle was issued and accepted. */
  ghost predicate OffAccepted(profile: Profile, log: seq<Call>, at: nat) {
    var answer := Answer(log, at + |Query(profile, log, at).requests|);
    Confirms(profile, log, at) && answer.Ok? && SaysSuccess(answer.value)
  }

  /** After it, the verifying read succeeded and said off. */
  ghost predicate OffVerified(profile: Profile, log: seq<Call>, at: nat) {
    var verification := Query(profile, log, at + |Query(profile, log, at).requests| + 1);
    OffAccepted(profile, log, at) && verification.result.Ok? && verification.result.value.state == Off
  }

  /**
   A power cycle issues any command at all after those that switch off, exactly when the off command
   was accepted and the verifying read succeeded and said off.
   */
  lemma RestorationNeedsVerifiedOff(profile: Profile, log: seq<Call>, at: nat)
    ensures
      |Switch(profile, log, at, false).requests| < |PowerCycle(profile, log, at, true).requests| <==>
      OffVerified(profile, log, at)
  {
    hide Query, Accepted, SaysSuccess;
    if Confirms(profile, log, at) {
      var answer := Answer(log, at + |Query(profile, log, at).requests|);
      if answer.Ok? { AcceptedMeaning(answer.value); }
      OkNeedsBackend(profile, log, at);
      QueryStartsWithRead(profile, log, at + |Switch(profile, log, at, false).requests|);
    }
  }

  lemma IncludesItself(text: Bytes)
    ensures Includes(text, text)
  {
    RFindMeaning(text, text);
    assert OccursAt(text, text, 0);
  }

  /**
   So power can stay off: here the relay accepts the off command, the verifying read fails, and the
   power cycle gives up without switching on, although the specification promises a restoration.
   */
  lemma AcceptedOffCanStayOff() returns (profile: Profile, log: seq<Call>)
    ensures OffAccepted(profile, log, 0)
    ensures PowerCycle(profile, log, 0, true).result == Err(Error(CommandTimeout, "power_query"))
    ensures |log| == 3 && Follows(log, 0, PowerCycle(profile, log, 0, true).requests)
    ensures forall i :: 0 <= i < |log| ==> log[i].request != Change(true)
  {
    profile := Profile(true, Ok(None));
    log := [
      Call(ReadState, 0, Ok(Output(true, "OnOff: TRUE", []))),
      Call(Change(false), 0, Ok(Output(true, "SUCCESS", []))),
      Call(ReadState, 0, Err(Error(CommandTimeout, "power_query")))
    ];
    var accepted: Bytes := "SUCCESS";
    IncludesItself(accepted);
    assert accepted + [] == accepted;
    AcceptedMeaning(log[1].answer.value);
  }

  /**
   In particular an off command that was issued and then failed, perhaps after the relay had acted on
   it, is followed by nothing.
   */
  lemma FailedOffCanStayOff() returns (profile: Profile, log: seq<Call>)
    ensures Confirms(profile, log, 0)
    ensures |log| == 2 && log[1].request == Change(false) && log[1].answer == Err(Error(CommandTimeout, "power_change"))
    ensures PowerCycle(profile, log, 0, true).result == Err(Error(CommandTimeout, "power_change"))
    ensures Follows(log, 0, PowerCycle(profile, log, 0, true).requests)
  {
    profile := Profile(true, Ok(None));
    log := [
      Call(ReadState, 0, Ok(Output(true, "OnOff: TRUE", []))),
      Call(Change(false), 0, Err(Error(CommandTimeout, "power_change")))
    ];
  }

  /**
   A successful change reports whether its verifying read identified the device: it did if and only if
   the profile names none, or the last command of the change is a list of neighbors that contains it.
   */
  lemma VerifyingReadIdentifies(profile: Profile, log: seq<Call>, at: nat, on: bool)
    requires Follows(log, at, Switch(profile, log, at, on).requests)
    requires Switch(profile, log, at, on).result.Ok?
    ensures profile.identity.Ok? && Switch(profile, log, at, on).requests != []
    ensures
      var s := Switch(profile, log, at, on);
      var last := log[at + |s.requests| - 1];
      s.result.value.identityVerified <==>
      profile.identity.value.None? || Recognizes(last, profile.identity.value.value)
  {
    SwitchNeedsBackend(profile, log, at, on);
    SwitchOk(profile, log, at, on);
    var before := Query(profile, log, at).requests;
    var c := at + |before| + 1;
    var after := Query(profile, log, c);
    SwitchAfterChange(profile, log, at, on);
    hide Query, Switch, Accepted, Recognizes, Follows;
    FollowsBoth(log, at, before + [Change(on)], after.requests);
    LastIdentifies(profile, log, c);
  }

  lemma LastIdentifies(profile: Profile, log: seq<Call>, at: nat)
    requires Follows(log, at, Query(profile, log, at).requests) && Query(profile, log, at).result.Ok?
    ensures profile.identity.Ok? && Query(profile, log, at).requests != []
    ensures
      var q := Query(profile, log, at);
      var last := log[at + |q.requests| - 1];
      q.result.value.identityVerified <==>
      profile.identity.value.None? || Recognizes(last, profile.identity.value.value)
  {
    QueryMeaning(profile, log, at);
    hide Query, Recognizes, ReadAs;
  }

  /** Success does not depend on that report: it can rest on a verifying read that did not find the device. */
  lemma FinalReadMayBeUnidentified() returns (profile: Profile, log: seq<Call>)
    ensures |log| == 5 && Follows(log, 0, Switch(profile, log, 0, true).requests)
    ensures Switch(profile, log, 0, true).result == Ok(PowerObservation(On, false))
  {
    var mac: Bytes := "60";
    var on: Bytes := "OnOff: TRUE";
    var accepted: Bytes := "SUCCESS";
    profile := Profile(true, Ok(Some(mac)));
    log := [
      Call(ReadState, 0, Ok(Output(true, on, []))),
      Call(ListNeighbors, 0, Ok(Output(true, mac, []))),
      Call(Change(true), 0, Ok(Output(true, accepted, []))),
      Call(ReadState, 0, Ok(Output(true, on, []))),
      Call(ListNeighbors, 0, Ok(Output(true, [], [])))
    ];
    IncludesItself(mac);
    IncludesItself(on);
    IncludesItself(accepted);
    assert Lower(mac) == mac;
    assert on + [] == on && accepted + [] == accepted;
    RFindMeaning([], mac);
    assert Lower([]) == [];
  }
}
