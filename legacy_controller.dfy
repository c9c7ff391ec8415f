/**
 * The first controller (`controller.js`): it compares the priority levels of two fixed registry
 * devices, the speakers and the headset, and sends `'1'` or `'0'` when the comparison changes.
 * Its baseline starts at `false`, so the speakers-off state is never sent first.
 */
module LegacyController {
  import opened Common
  import opened Text
  import opened JsNumber
  import opened Host

  // ---------------------------------------------------------------------------------------------
  // Finding the switch
  // ---------------------------------------------------------------------------------------------

  /**
   * `getDevice`: nothing when `exec` failed, otherwise the first Leonardo. This version does not
   * check for empty output, on which `JSON.parse` throws; hence the requirement.
   */
  function GetDevice(l: Listing): Option<ListedPort>
    requires !l.ListEmpty?
  {
    if l.Listed? then FirstSwitch(l.ports) else None
  }

  /** A failed listing finds nothing; otherwise a listed Leonardo is found whenever there is one. */
  lemma GetDeviceFindsSwitch(l: Listing)
    requires !l.ListEmpty?
    ensures l.ListFailed? ==> GetDevice(l).None?
    ensures GetDevice(l).Some? ==> IsSwitch(GetDevice(l).value) && GetDevice(l).value in l.ports
    ensures l.Listed? && (exists k :: 0 <= k < |l.ports| && IsSwitch(l.ports[k])) ==> GetDevice(l).Some?
    ensures GetDevice(l).Some? ==>
              exists i :: 0 <= i < |l.ports| && l.ports[i] == GetDevice(l).value
                          && forall k :: 0 <= k < i ==> !IsSwitch(l.ports[k])
  {
    if l.Listed? {
      FirstSwitchIsFirst(l.ports);
    }
    if GetDevice(l).Some? {
      var i :| 0 <= i < |l.ports| && l.ports[i] == GetDevice(l).value && IsSwitch(l.ports[i])
               && forall k :: 0 <= k < i ==> !IsSwitch(l.ports[k]);
    }
  }

  /** One firing of the `createPort` interval: the path to open, when the switch has one. */
  function PortPath(l: Listing): Option<string>
    requires !l.ListEmpty?
  {
    var d := GetDevice(l);
    if d.Some? && HasPath(d.value) then d.value.path else None
  }

  /** A port is opened only on the non-empty path of a found switch. */
  lemma PortPathIsSwitchPath(l: Listing)
    requires !l.ListEmpty?
    ensures PortPath(l).Some? ==> PortPath(l).value != [] && GetDevice(l).Some? && GetDevice(l).value.path == PortPath(l)
    ensures PortPath(l).None? ==> GetDevice(l).None? || !HasPath(GetDevice(l).value)
  {
  }

  /** What one firing of the interval settles on; an empty listing, excluded by `Pollable`, settles on nothing. */
  function PollPath(l: Listing): Option<string> {
    if l.ListEmpty? then None else PortPath(l)
  }

  /** The path each firing would settle on. */
  function PollPaths(polls: seq<Listing>): seq<Option<string>> {
    seq(|polls|, k requires 0 <= k < |polls| => PollPath(polls[k]))
  }

  /** No firing meets an empty listing before the switch was found: the polling never throws. */
  predicate Pollable(polls: seq<Listing>) {
    forall k :: 0 <= k < |polls| && EmptyAt(polls, k) ==> exists j :: 0 <= j < k && PollPath(polls[j]).Some?
  }

  /** Firing `k` met an empty listing. */
  predicate EmptyAt(polls: seq<Listing>, k: int) {
    0 <= k < |polls| && polls[k].ListEmpty?
  }

  /** The path `createPort` opens: that of the first firing that found a switch with a path. */
  function FirstPath(polls: seq<Listing>): Option<string> {
    FirstSome(PollPaths(polls))
  }

  /**
   * Under `Pollable`, no firing before the one `createPort` settles on met an empty listing or
   * found a switch with a path; it settles on nothing only when every firing was like that.
   */
  lemma FirstPathIsFirstHit(polls: seq<Listing>)
    requires Pollable(polls)
    ensures FirstPath(polls).None? ==> forall k :: 0 <= k < |polls| ==> !polls[k].ListEmpty? && PortPath(polls[k]).None?
    ensures FirstPath(polls).Some? ==>
              exists k :: 0 <= k < |polls| && !polls[k].ListEmpty? && PortPath(polls[k]) == FirstPath(polls)
                          && forall j :: 0 <= j < k ==> !polls[j].ListEmpty? && PortPath(polls[j]).None?
  {
    var ps := PollPaths(polls);
    assert |PollPaths(polls)| == |polls|;
    assert forall k :: 0 <= k < |polls| ==> PollPaths(polls)[k] == PollPath(polls[k]);
    var r := FirstSome(ps);
    if r.Some? {
      var k :| 0 <= k < |ps| && ps[k] == r && forall j :: 0 <= j < k ==> ps[j].None?;
      assert !polls[k].ListEmpty? && PortPath(polls[k]) == r
             && forall j :: 0 <= j < k ==> !polls[j].ListEmpty? && PortPath(polls[j]).None? by {
        NoEmptyBeforeHit(polls, k);
      }
    } else {
      assert forall k :: 0 <= k < |polls| ==> !polls[k].ListEmpty? && PortPath(polls[k]).None? by {
        NoEmptyBeforeHit(polls, |polls|);
      }
    }
  }

  /** Before the first firing that finds a path, `Pollable` rules out every empty listing. */
  lemma NoEmptyBeforeHit(polls: seq<Listing>, k: nat)
    requires Pollable(polls) && k <= |polls|
    requires forall j :: 0 <= j < k ==> PollPath(polls[j]).None?
    ensures forall j :: 0 <= j < k ==> !polls[j].ListEmpty? && PortPath(polls[j]).None?
  {
    forall j | 0 <= j < k ensures !polls[j].ListEmpty? {
      assert !exists i :: 0 <= i < j && PollPath(polls[i]).Some?;
      assert !EmptyAt(polls, j);
    }
  }

  /** The interval of `createPort`, over the outcomes of its successive firings. */
  method SearchForSwitch(polls: seq<Listing>) returns (path: Option<string>)
    requires Pollable(polls)
    ensures path == FirstPath(polls)
  {
    ghost var ps := PollPaths(polls);
    assert |PollPaths(polls)| == |polls|;
    assert forall k :: 0 <= k < |polls| ==> PollPaths(polls)[k] == PollPath(polls[k]);
    var i := 0;
    while i < |polls|
      invariant 0 <= i <= |polls|
      invariant forall j :: 0 <= j < i ==> ps[j].None?
    {
      assert !EmptyAt(polls, i) by {
        assert !exists j :: 0 <= j < i && PollPath(polls[j]).Some?;
      }
      var found := PortPath(polls[i]);
      if found.Some? {
        FirstSomeAt(ps, i);
        return found;
      }
      i := i + 1;
    }
    return None;
  }

  // ---------------------------------------------------------------------------------------------
  // The comparison and the change-only send
  // ---------------------------------------------------------------------------------------------

  /** The module-level variables: the baseline (`false` at start), the opened path, the bytes written. */
  datatype Snapshot = Snapshot(previousState: bool, port: Option<string>, written: seq<char>)

  const Initial: Snapshot := Snapshot(false, None, [])

  /** When both queries succeed, both replies hold a `0x`; otherwise the parse throws. */
  predicate Parsable(speakers: Reply, headset: Reply) {
    !speakers.error && !headset.error ==> Contains(speakers.stdout, "0x") && Contains(headset.stdout, "0x")
  }

  /** `speakerLevel > headsetLevel`, `NaN` and ties choosing the headset. */
  function SpeakersPreferred(speakers: string, headset: string): (r: bool)
    requires Contains(speakers, "0x") && Contains(headset, "0x")
    ensures r <==> RegistryLevel(speakers).Num? && RegistryLevel(headset).Num?
                   && RegistryLevel(speakers).value > RegistryLevel(headset).value
    ensures RegistryLevel(speakers) == RegistryLevel(headset) ==> !r
  {
    Greater(RegistryLevel(speakers), RegistryLevel(headset))
  }

  /** The two nested `exec` callbacks of `update`: a failed query ends the update with nothing sent. */
  function EvaluateStep(s: Snapshot, speakers: Reply, headset: Reply): (r: Snapshot)
    requires Parsable(speakers, headset)
    ensures speakers.error || headset.error ==> r == s
    ensures !speakers.error && !headset.error ==>
              r.previousState == SpeakersPreferred(speakers.stdout, headset.stdout)
    ensures r.port == s.port
    ensures r.previousState == s.previousState ==> r.written == s.written
    ensures r.previousState != s.previousState ==> r.written == s.written + [StateByte(r.previousState)]
  {
    if speakers.error || headset.error then s
    else
      var newState := SpeakersPreferred(speakers.stdout, headset.stdout);
      if newState != s.previousState then
        s.(written := s.written + [StateByte(newState)], previousState := newState)
      else s
  }

  /**
   * What the wire shows after any sequence of updates from the start: the bytes alternate and begin
   * with `'1'`, and the baseline is on exactly after an odd number of bytes.
   */
  predicate Toggles(s: Snapshot) {
    (forall k :: 0 <= k < |s.written| ==> s.written[k] == (if k % 2 == 0 then '1' else '0'))
    && s.previousState == (|s.written| % 2 == 1)
  }

  lemma InitialToggles()
    ensures Toggles(Initial)
  {
  }

  /** Sending the other byte keeps the alternation. */
  lemma FlipToggles(s: Snapshot)
    requires Toggles(s)
    ensures Toggles(s.(written := s.written + [StateByte(!s.previousState)], previousState := !s.previousState))
  {
    var n := |s.written|;
    assert StateByte(!s.previousState) == (if n % 2 == 0 then '1' else '0');
    assert (n + 1) % 2 == 1 <==> n % 2 == 0;
  }

  /** Every update keeps the alternation: a byte is sent only when it is the other one. */
  lemma EvaluateKeepsToggles(s: Snapshot, speakers: Reply, headset: Reply)
    requires Parsable(speakers, headset) && Toggles(s)
    ensures Toggles(EvaluateStep(s, speakers, headset))
    ensures |EvaluateStep(s, speakers, headset).written| <= |s.written| + 1
  {
    var r := EvaluateStep(s, speakers, headset);
    if r != s {
      assert r == s.(written := s.written + [StateByte(!s.previousState)], previousState := !s.previousState);
      FlipToggles(s);
    }
  }

  /** While the baseline is still `false`, a first comparison that favours the headset sends nothing. */
  lemma HeadsetFirstSendsNothing(speakers: Reply, headset: Reply)
    requires Parsable(speakers, headset)
    requires !speakers.error && !headset.error && !SpeakersPreferred(speakers.stdout, headset.stdout)
    ensures EvaluateStep(Initial, speakers, headset) == Initial
  {
  }

  /** From the start, the first update sends `'1'` when the speakers win and nothing otherwise. */
  lemma FirstSendOnlyIfSpeakers(port: string, speakers: Reply, headset: Reply)
    requires Parsable(speakers, headset)
    ensures EvaluateStep(Initial.(port := Some(port)), speakers, headset).written
            == if !speakers.error && !headset.error && SpeakersPreferred(speakers.stdout, headset.stdout) then ['1'] else []
  {
  }

  /** The inputs of one update: the connectivity probe, the reconnect polls, the two replies. */
  datatype UpdateInput = UpdateInput(probe: Listing, polls: seq<Listing>, speakers: Reply, headset: Reply)

  /** A sequence of update replies that never throws. */
  predicate AllParsable(inputs: seq<UpdateInput>) {
    forall k :: 0 <= k < |inputs| ==> Parsable(inputs[k].speakers, inputs[k].headset)
  }

  /** The bytes sent by successive comparisons. */
  function EvaluateAll(s: Snapshot, inputs: seq<UpdateInput>): Snapshot
    requires AllParsable(inputs)
    decreases |inputs|
  {
    if inputs == [] then s
    else
      assert AllParsable(inputs[1..]) by {
        forall k | 0 <= k < |inputs[1..]| ensures Parsable(inputs[1..][k].speakers, inputs[1..][k].headset) {
          assert inputs[1..][k] == inputs[k + 1];
        }
      }
      EvaluateAll(EvaluateStep(s, inputs[0].speakers, inputs[0].headset), inputs[1..])
  }

  /** From the start, any run of updates leaves an alternating wire, at most one byte per update. */
  lemma {:induction false} RunToggles(s: Snapshot, inputs: seq<UpdateInput>)
    requires AllParsable(inputs) && Toggles(s)
    ensures Toggles(EvaluateAll(s, inputs))
    ensures s.written <= EvaluateAll(s, inputs).written
    ensures |EvaluateAll(s, inputs).written| <= |s.written| + |inputs|
    decreases |inputs|
  {
    if inputs != [] {
      var t := EvaluateStep(s, inputs[0].speakers, inputs[0].headset);
      EvaluateKeepsToggles(s, inputs[0].speakers, inputs[0].headset);
      assert AllParsable(inputs[1..]) by {
        forall k | 0 <= k < |inputs[1..]| ensures Parsable(inputs[1..][k].speakers, inputs[1..][k].headset) {
          assert inputs[1..][k] == inputs[k + 1];
        }
      }
      RunToggles(t, inputs[1..]);
    }
  }

  // ---------------------------------------------------------------------------------------------
  // The module as an object
  // ---------------------------------------------------------------------------------------------

  class LegacyController {
    var previousState: bool
    var port: Option<string>
    var written: seq<char>

    function State(): Snapshot
      reads this
    {
      Snapshot(previousState, port, written)
    }

    constructor ()
      ensures State() == Initial
    {
      previousState, port, written := false, None, [];
    }

    /**
     * `createPort`: poll until a switch with a path is listed, then open the port on it. When no
     * poll finds one the source keeps polling forever, reported here as `found == false`.
     */
    method CreatePort(polls: seq<Listing>) returns (found: bool)
      requires Pollable(polls)
      modifies this
      ensures found <==> FirstPath(polls).Some?
      ensures found ==> State() == old(State()).(port := FirstPath(polls))
      ensures !found ==> State() == old(State())
    {
      var path := SearchForSwitch(polls);
      found := path.Some?;
      if found {
        port := path;
      }
    }

    /** The nested `exec` callbacks of `update`: compare the two levels and send on a change. */
    method Compare(speakers: Reply, headset: Reply)
      requires Parsable(speakers, headset)
      modifies this
      ensures State() == EvaluateStep(old(State()), speakers, headset)
    {
      if speakers.error || headset.error {
        return;
      }
      var newState := SpeakersPreferred(speakers.stdout, headset.stdout);
      if newState != previousState {
        written := written + [StateByte(newState)];
        previousState := newState;
      }
    }

    /**
     * `update`: reconnect when the probe no longer lists the switch, then compare the two
     * levels. The top level runs `createPort` before the first update, so a port is open.
     */
    method Update(input: UpdateInput) returns (blocked: bool)
      requires port.Some? && !input.probe.ListEmpty?
      requires GetDevice(input.probe).None? ==> Pollable(input.polls)
      requires Parsable(input.speakers, input.headset)
      modifies this
      ensures blocked <==> GetDevice(input.probe).None? && FirstPath(input.polls).None?
      ensures blocked ==> State() == old(State())
      ensures !blocked ==>
                State() == EvaluateStep(
                  old(State()).(port := if GetDevice(input.probe).Some? then old(port) else FirstPath(input.polls)),
                  input.speakers, input.headset)
    {
      if GetDevice(input.probe).None? {
        var found := CreatePort(input.polls);
        if !found {
          return true;
        }
      }
      blocked := false;
      Compare(input.speakers, input.headset);
    }
  }
}
