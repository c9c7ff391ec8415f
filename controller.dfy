/**
 * The tray controller (`controller/index.js`): it loads the audio-device keys once, then on every
 * update samples the priority level of the "active" and "inactive" device groups and sends `'1'`
 * or `'0'` to the switch only when the preferred state changes. Tray entries set the state directly.
 */
module Controller {
  import opened Common
  import opened Text
  import opened JsNumber
  import opened Host

  // ---------------------------------------------------------------------------------------------
  // Priority levels
  // ---------------------------------------------------------------------------------------------

  /** A readable reply must hold a `0x`; otherwise the source's parse throws inside the callback. */
  predicate Parsable(r: Reply) {
    Readable(r) ==> Contains(r.stdout, "0x")
  }

  /** The level one `reg query ... /f Level:0` resolves to: 0 when it failed or printed nothing. */
  function DeviceLevel(r: Reply): JsNum
    requires Parsable(r)
  {
    if !Readable(r) then Num(0) else RegistryLevel(r.stdout)
  }

  /**
   * A device whose query failed or printed nothing counts as level 0; a readable reply whose field
   * after `0x` starts with a digit counts as the value of that field's leading hexadecimal digits.
   */
  lemma DeviceLevelMeaning(r: Reply)
    requires Parsable(r)
    ensures !Readable(r) ==> DeviceLevel(r) == Num(0)
    ensures Readable(r) ==>
              var f := FieldAfter0x(r.stdout);
              f != [] && IsHexDigit(f[0]) && !(|f| >= 2 && f[0] == '0' && f[1] == 'X') ==>
                DeviceLevel(r) == Num(HexValue(HexPrefix(f)))
  {
    if Readable(r) {
      var f := FieldAfter0x(r.stdout);
      if f != [] && IsHexDigit(f[0]) && !(|f| >= 2 && f[0] == '0' && f[1] == 'X') {
        RegistryLevelIsLeadingDigits(r.stdout);
      }
    }
  }

  /** Every device of the group can be queried without the parse throwing. */
  predicate AllParsable(keys: seq<string>, query: string -> Reply) {
    forall k :: k in keys ==> Parsable(query(k))
  }

  /** The level of each device of the group, in order. */
  function Levels(keys: seq<string>, query: string -> Reply): seq<JsNum>
    requires AllParsable(keys, query)
  {
    seq(|keys|, i requires 0 <= i < |keys| => DeviceLevel(query(keys[i])))
  }

  /** `level = Math.max(level, ...)` over a list of levels, starting from 0. */
  function MaxLevel(ls: seq<JsNum>): JsNum {
    if ls == [] then Num(0) else Max(MaxLevel(ls[..|ls| - 1]), ls[|ls| - 1])
  }

  /** The level of a group: the running maximum of its devices' levels. */
  function GroupLevel(keys: seq<string>, query: string -> Reply): JsNum
    requires AllParsable(keys, query)
  {
    MaxLevel(Levels(keys, query))
  }

  /** One `NaN` level (a field `parseInt` cannot read) makes the running maximum `NaN`, and only then is it `NaN`. */
  lemma {:induction false} MaxLevelNaN(ls: seq<JsNum>)
    ensures MaxLevel(ls).NaN? <==> NaN in ls
  {
    if ls != [] {
      var init := ls[..|ls| - 1];
      MaxLevelNaN(init);
      assert ls == init + [ls[|ls| - 1]];
    }
  }

  /**
   * Without `NaN`, the running maximum is the maximum of the levels and 0: at least 0, at least
   * every level, and either 0 or one of them. An empty list gives 0.
   */
  lemma {:induction false} MaxLevelIsMaximum(ls: seq<JsNum>)
    requires NaN !in ls
    ensures MaxLevel(ls).Num? && MaxLevel(ls).value >= 0
    ensures forall i :: 0 <= i < |ls| ==> MaxLevel(ls).value >= ls[i].value
    ensures MaxLevel(ls).value == 0 || MaxLevel(ls) in ls
  {
    if ls != [] {
      var init := ls[..|ls| - 1];
      assert ls == init + [ls[|ls| - 1]];
      MaxLevelIsMaximum(init);
    }
  }

  /** The group level is `NaN` exactly when some device's level is. */
  lemma GroupLevelNaN(keys: seq<string>, query: string -> Reply)
    requires AllParsable(keys, query)
    ensures GroupLevel(keys, query).NaN? <==> exists i :: 0 <= i < |keys| && DeviceLevel(query(keys[i])).NaN?
  {
    var ls := Levels(keys, query);
    assert |Levels(keys, query)| == |keys|;
    assert forall i :: 0 <= i < |keys| ==> Levels(keys, query)[i] == DeviceLevel(query(keys[i]));
    MaxLevelNaN(ls);
    if NaN in ls {
      var i :| 0 <= i < |ls| && ls[i] == NaN;
      assert DeviceLevel(query(keys[i])).NaN?;
    } else {
      forall i | 0 <= i < |keys| ensures DeviceLevel(query(keys[i])).Num? {
        assert ls[i] in ls;
      }
    }
  }

  /**
   * Without `NaN`, a group's level is at least 0, at least every device's level, and either 0
   * (no device, or none above 0) or the level of one of its devices.
   */
  lemma GroupLevelIsMaximum(keys: seq<string>, query: string -> Reply)
    requires AllParsable(keys, query)
    requires forall i :: 0 <= i < |keys| ==> DeviceLevel(query(keys[i])).Num?
    ensures GroupLevel(keys, query).Num? && GroupLevel(keys, query).value >= 0
    ensures forall i :: 0 <= i < |keys| ==> GroupLevel(keys, query).value >= DeviceLevel(query(keys[i])).value
    ensures GroupLevel(keys, query).value == 0
            || exists i :: 0 <= i < |keys| && GroupLevel(keys, query) == DeviceLevel(query(keys[i]))
  {
    var ls := Levels(keys, query);
    assert |Levels(keys, query)| == |keys|;
    assert forall i :: 0 <= i < |keys| ==> Levels(keys, query)[i] == DeviceLevel(query(keys[i]));
    MaxLevelIsMaximum(ls);
    if MaxLevel(ls).value != 0 {
      var i :| 0 <= i < |ls| && ls[i] == MaxLevel(ls);
      assert GroupLevel(keys, query) == DeviceLevel(query(keys[i]));
    }
  }

  /** A group whose every query failed or printed nothing, an empty group included, has level 0. */
  lemma UnreadableGroupIsZero(keys: seq<string>, query: string -> Reply)
    requires forall k :: k in keys ==> !Readable(query(k))
    ensures AllParsable(keys, query) && GroupLevel(keys, query) == Num(0)
  {
    forall i | 0 <= i < |keys| ensures DeviceLevel(query(keys[i])) == Num(0) {
      assert keys[i] in keys;
    }
    GroupLevelIsMaximum(keys, query);
  }

  /** The loop of `update` over one group. */
  method SampleGroup(keys: seq<string>, query: string -> Reply) returns (level: JsNum)
    requires AllParsable(keys, query)
    ensures level == GroupLevel(keys, query)
  {
    ghost var ls := Levels(keys, query);
    assert |Levels(keys, query)| == |keys|;
    assert forall i :: 0 <= i < |keys| ==> Levels(keys, query)[i] == DeviceLevel(query(keys[i]));
    level := Num(0);
    for i := 0 to |keys|
      invariant level == MaxLevel(ls[..i])
    {
      assert ls[..i + 1][..i] == ls[..i];
      level := Max(level, DeviceLevel(query(keys[i])));
    }
    assert ls[..|keys|] == ls;
  }

  /** `activeLevel > inactiveLevel`: equal levels, including two empty groups, favour the inactive group. */
  function Preferred(activeLevel: JsNum, inactiveLevel: JsNum): (r: bool)
    ensures activeLevel == inactiveLevel ==> !r
    ensures activeLevel.NaN? || inactiveLevel.NaN? ==> !r
    ensures r <==> activeLevel.Num? && inactiveLevel.Num? && activeLevel.value > inactiveLevel.value
  {
    Greater(activeLevel, inactiveLevel)
  }

  // ---------------------------------------------------------------------------------------------
  // Controller state and the change-only send
  // ---------------------------------------------------------------------------------------------

  /**
   * The module-level variables: the last sent state (`undefined` at start), the path the current
   * port was opened on, the bytes handed to `port.write`, and the two device-key lists.
   */
  datatype Snapshot = Snapshot(
    previousState: Option<bool>,
    port: Option<string>,
    written: seq<char>,
    active: seq<string>,
    inactive: seq<string>)

  const Initial: Snapshot := Snapshot(None, None, [], [], [])

  /** `setSwitchState(state)`: write its byte and make it the baseline. */
  function SetSwitchStateStep(s: Snapshot, state: bool): (r: Snapshot)
    requires s.port.Some?
    ensures r.previousState == Some(state)
    ensures r.written == s.written + [StateByte(state)]
    ensures r.(previousState := s.previousState, written := s.written) == s
  {
    s.(written := s.written + [StateByte(state)], previousState := Some(state))
  }

  /** The end of `update`: send `newState` only when it differs from the baseline. */
  function EvaluateStep(s: Snapshot, newState: bool): (r: Snapshot)
    requires s.port.Some?
    ensures r.previousState == Some(newState)
    ensures r.port == s.port && r.active == s.active && r.inactive == s.inactive
    ensures s.previousState == Some(newState) ==> r == s
    ensures s.previousState != Some(newState) ==> r.written == s.written + [StateByte(newState)]
  {
    if s.previousState != Some(newState) then SetSwitchStateStep(s, newState) else s
  }

  /** While `undefined`, the first evaluation always sends. */
  lemma FirstEvaluationSends(s: Snapshot, newState: bool)
    requires s.port.Some? && s.previousState.None?
    ensures EvaluateStep(s, newState).written == s.written + [StateByte(newState)]
  {
  }

  /** Right after a tray toggle to `state`, an evaluation that computes the same state sends nothing. */
  lemma ManualOverrideSticky(s: Snapshot, state: bool)
    requires s.port.Some?
    ensures EvaluateStep(SetSwitchStateStep(s, state), state) == SetSwitchStateStep(s, state)
  {
  }

  /** An evaluation that computes the other state overrides the tray toggle with one byte. */
  lemma ManualOverrideYields(s: Snapshot, state: bool)
    requires s.port.Some?
    ensures EvaluateStep(SetSwitchStateStep(s, state), !state).written
            == s.written + [StateByte(state), StateByte(!state)]
  {
  }

  /** Automatic evaluations one after another. */
  function EvaluateAll(s: Snapshot, states: seq<bool>): Snapshot
    requires s.port.Some?
    decreases |states|
  {
    if states == [] then s else EvaluateAll(EvaluateStep(s, states[0]), states[1..])
  }

  /** The baseline is the state last written: nothing was sent yet, or the last byte sent says it. */
  predicate Consistent(s: Snapshot) {
    (s.previousState.None? <==> s.written == [])
    && (s.previousState.Some? ==> s.written[|s.written| - 1] == StateByte(s.previousState.value))
  }

  /** No byte on the wire repeats the byte before it. */
  predicate Alternating(w: seq<char>) {
    forall k :: 0 < k < |w| ==> w[k] != w[k - 1]
  }

  /**
   * No redundant writes: over any run of automatic evaluations, each byte sent differs from the one
   * before it, at most one byte is sent per evaluation, and the baseline keeps matching the wire.
   */
  lemma {:induction false} EvaluationsNeverRepeat(s: Snapshot, states: seq<bool>)
    requires s.port.Some? && Consistent(s) && Alternating(s.written)
    ensures Consistent(EvaluateAll(s, states)) && Alternating(EvaluateAll(s, states).written)
    ensures s.written <= EvaluateAll(s, states).written
    ensures |EvaluateAll(s, states).written| <= |s.written| + |states|
    decreases |states|
  {
    if states != [] {
      var t := EvaluateStep(s, states[0]);
      assert Alternating(t.written) by {
        if t != s {
          assert s.written == [] || s.written[|s.written| - 1] != StateByte(states[0]);
        }
      }
      EvaluationsNeverRepeat(t, states[1..]);
    }
  }

  /** Two evaluations that compute the same state send at most one byte between them. */
  lemma RepeatedEvaluationSendsOnce(s: Snapshot, state: bool)
    requires s.port.Some?
    ensures EvaluateStep(EvaluateStep(s, state), state).written == EvaluateStep(s, state).written
    ensures |EvaluateStep(EvaluateStep(s, state), state).written| <= |s.written| + 1
  {
  }

  // ---------------------------------------------------------------------------------------------
  // Finding the switch
  // ---------------------------------------------------------------------------------------------

  /** `getSwitchDevice`: nothing when `exec` failed or printed nothing, otherwise the first Leonardo. */
  function GetSwitchDevice(l: Listing): Option<ListedPort> {
    if l.Listed? then FirstSwitch(l.ports) else None
  }

  /** A failed or empty listing finds nothing; otherwise a listed Leonardo is found whenever there is one. */
  lemma SwitchDeviceFound(l: Listing)
    ensures !l.Listed? ==> GetSwitchDevice(l).None?
    ensures GetSwitchDevice(l).Some? ==> IsSwitch(GetSwitchDevice(l).value) && GetSwitchDevice(l).value in l.ports
    ensures l.Listed? && (exists k :: 0 <= k < |l.ports| && IsSwitch(l.ports[k])) ==> GetSwitchDevice(l).Some?
    ensures GetSwitchDevice(l).Some? ==>
              exists i :: 0 <= i < |l.ports| && l.ports[i] == GetSwitchDevice(l).value
                          && forall k :: 0 <= k < i ==> !IsSwitch(l.ports[k])
  {
    if l.Listed? {
      FirstSwitchIsFirst(l.ports);
    }
    if GetSwitchDevice(l).Some? {
      var i :| 0 <= i < |l.ports| && l.ports[i] == GetSwitchDevice(l).value && IsSwitch(l.ports[i])
               && forall k :: 0 <= k < i ==> !IsSwitch(l.ports[k]);
    }
  }

  /** One poll of `connect`: the path to open, when the switch was found with a non-empty path. */
  function ConnectablePath(l: Listing): Option<string> {
    var d := GetSwitchDevice(l);
    if d.Some? && HasPath(d.value) then d.value.path else None
  }

  /** A port is opened only on the non-empty path of a found switch. */
  lemma ConnectablePathIsSwitchPath(l: Listing)
    ensures ConnectablePath(l).Some? ==>
              ConnectablePath(l).value != [] && GetSwitchDevice(l).Some? && GetSwitchDevice(l).value.path == ConnectablePath(l)
    ensures ConnectablePath(l).None? ==> GetSwitchDevice(l).None? || !HasPath(GetSwitchDevice(l).value)
  {
  }

  /** The path each poll would settle on. */
  function PollPaths(polls: seq<Listing>): seq<Option<string>> {
    seq(|polls|, k requires 0 <= k < |polls| => ConnectablePath(polls[k]))
  }

  /** The path `connect` settles on: that of the first poll that found a switch with a path. */
  function FirstConnectable(polls: seq<Listing>): Option<string> {
    FirstSome(PollPaths(polls))
  }

  /**
   * `connect` settles on nothing exactly when no poll finds a switch with a path, and otherwise on
   * the path of the first poll that does.
   */
  lemma FirstConnectableIsFirstHit(polls: seq<Listing>)
    ensures FirstConnectable(polls).None? <==> forall k :: 0 <= k < |polls| ==> ConnectablePath(polls[k]).None?
    ensures FirstConnectable(polls).Some? ==>
              exists k :: 0 <= k < |polls| && ConnectablePath(polls[k]) == FirstConnectable(polls)
                          && forall j :: 0 <= j < k ==> ConnectablePath(polls[j]).None?
  {
    var ps := PollPaths(polls);
    assert |PollPaths(polls)| == |polls|;
    assert forall k :: 0 <= k < |polls| ==> PollPaths(polls)[k] == ConnectablePath(polls[k]);
    if FirstSome(ps).Some? {
      var k :| 0 <= k < |ps| && ps[k] == FirstSome(ps) && forall j :: 0 <= j < k ==> ps[j].None?;
      assert ConnectablePath(polls[k]) == FirstConnectable(polls);
    }
  }

  /** The polling loop of `connect`, over the outcomes of its successive polls. */
  method PollForSwitch(polls: seq<Listing>) returns (path: Option<string>)
    ensures path == FirstConnectable(polls)
  {
    ghost var ps := PollPaths(polls);
    assert |PollPaths(polls)| == |polls|;
    assert forall k :: 0 <= k < |polls| ==> PollPaths(polls)[k] == ConnectablePath(polls[k]);
    var i := 0;
    while i < |polls|
      invariant 0 <= i <= |polls|
      invariant forall j :: 0 <= j < i ==> ps[j].None?
    {
      var found := ConnectablePath(polls[i]);
      if found.Some? {
        FirstSomeAt(ps, i);
        return found;
      }
      i := i + 1;
    }
    return None;
  }

  // ---------------------------------------------------------------------------------------------
  // Audio-device keys
  // ---------------------------------------------------------------------------------------------

  /** A character of the class `[a-z0-9-]` under the `i` flag. */
  predicate IsGuidChar(c: char) {
    ('a' <= c <= 'z') || ('A' <= c <= 'Z') || ('0' <= c <= '9') || c == '-'
  }

  /** A whole match of `/{[a-z0-9-]+}/i`. */
  predicate IsGuidToken(t: string) {
    |t| >= 3 && t[0] == '{' && t[|t| - 1] == '}' && forall k :: 0 < k < |t| - 1 ==> IsGuidChar(t[k])
  }

  /** No match of the pattern starts at index `i` of `line`. */
  predicate NoTokenAt(line: string, i: nat) {
    forall j :: i < j <= |line| ==> !IsGuidToken(line[i..j])
  }

  /** `t` is a match of the pattern starting at index `p` of `line`. */
  predicate TokenAt(line: string, p: nat, t: string) {
    p + |t| <= |line| && line[p..p + |t|] == t && IsGuidToken(t)
  }

  /** The length of the run of class characters starting at `i`. */
  function GuidRun(line: string, i: nat): (n: nat)
    requires i <= |line|
    ensures i + n <= |line|
    ensures forall k :: i <= k < i + n ==> IsGuidChar(line[k])
    ensures i + n == |line| || !IsGuidChar(line[i + n])
    decreases |line| - i
  {
    if i < |line| && IsGuidChar(line[i]) then 1 + GuidRun(line, i + 1) else 0
  }

  /** The match starting at `i`, if any: `{`, a non-empty run of class characters, `}`. */
  function GuidAt(line: string, i: nat): (r: Option<string>)
    requires i <= |line|
    ensures r.Some? ==> TokenAt(line, i, r.value)
  {
    if i < |line| && line[i] == '{' then
      var n := GuidRun(line, i + 1);
      if n > 0 && i + 1 + n < |line| && line[i + 1 + n] == '}' then Some(line[i..i + n + 2]) else None
    else None
  }

  /** `GuidAt` misses no match: a match starting at `i` is the one it returns. */
  lemma GuidAtComplete(line: string, i: nat, j: nat)
    requires i < j <= |line| && IsGuidToken(line[i..j])
    ensures GuidAt(line, i) == Some(line[i..j])
  {
    var t := line[i..j];
    assert line[i] == t[0] == '{';
    assert forall k :: i + 1 <= k < j - 1 ==> IsGuidChar(line[k]) by {
      forall k | i + 1 <= k < j - 1 ensures IsGuidChar(line[k]) {
        assert line[k] == t[k - i];
      }
    }
    assert line[j - 1] == t[|t| - 1] == '}';
    var n := GuidRun(line, i + 1);
    assert n == j - i - 2;
  }

  /** The leftmost match at or after `i`. */
  function FirstGuidFrom(line: string, i: nat): Option<string>
    requires i <= |line|
    decreases |line| - i
  {
    var here := GuidAt(line, i);
    if here.Some? then here
    else if i == |line| then None
    else FirstGuidFrom(line, i + 1)
  }

  /** No match is missed: nothing is found only when no match starts at or after `i`, otherwise the leftmost one is. */
  lemma {:induction false} FirstGuidFromIsLeftmost(line: string, i: nat)
    requires i <= |line|
    ensures FirstGuidFrom(line, i).None? ==> forall q :: i <= q <= |line| ==> NoTokenAt(line, q)
    ensures FirstGuidFrom(line, i).Some? ==>
              exists p :: i <= p <= |line| && TokenAt(line, p, FirstGuidFrom(line, i).value)
                          && forall q :: i <= q < p ==> NoTokenAt(line, q)
    decreases |line| - i
  {
    var here := GuidAt(line, i);
    if here.Some? {
      assert TokenAt(line, i, here.value);
    } else {
      forall j | i < j <= |line| ensures !IsGuidToken(line[i..j]) {
        if IsGuidToken(line[i..j]) { GuidAtComplete(line, i, j); }
      }
      if i < |line| {
        FirstGuidFromIsLeftmost(line, i + 1);
        var r := FirstGuidFrom(line, i + 1);
        if r.Some? {
          var p :| i + 1 <= p <= |line| && TokenAt(line, p, r.value)
                   && forall q :: i + 1 <= q < p ==> NoTokenAt(line, q);
          assert forall q :: i <= q < p ==> NoTokenAt(line, q);
        }
      }
    }
  }

  /** `/{[a-z0-9-]+}/i.exec(line)?.[0]`: the leftmost match of the line, `undefined` when there is none. */
  function FirstGuid(line: string): Option<string> {
    FirstGuidFrom(line, 0)
  }

  /** `exec` finds nothing exactly when the line has no match, and otherwise a match with none starting before it. */
  lemma FirstGuidIsLeftmost(line: string)
    ensures FirstGuid(line).None? <==> forall q :: 0 <= q <= |line| ==> NoTokenAt(line, q)
    ensures FirstGuid(line).Some? ==>
              IsGuidToken(FirstGuid(line).value)
              && exists p :: 0 <= p <= |line| && TokenAt(line, p, FirstGuid(line).value)
                             && forall q :: 0 <= q < p ==> NoTokenAt(line, q)
  {
    FirstGuidFromIsLeftmost(line, 0);
    var r := FirstGuid(line);
    if r.Some? {
      var p :| 0 <= p <= |line| && TokenAt(line, p, r.value) && forall q :: 0 <= q < p ==> NoTokenAt(line, q);
      assert line[p..p + |r.value|] == r.value;
      assert !NoTokenAt(line, p);
    }
  }

  /** The first match of each line. */
  function LineGuids(lines: seq<string>): seq<Option<string>> {
    seq(|lines|, k requires 0 <= k < |lines| => FirstGuid(lines[k]))
  }

  /** The keys the `reg query` of the render-device branch yields: nothing on failure or empty output. */
  function DeviceKeysOf(r: Reply): seq<string> {
    if !Readable(r) then [] else Somes(LineGuids(SplitOn(r.stdout, '\n')))
  }

  /** The callback of the first `exec` in `getAudioDeviceKeys`: one entry per line, then `filter(Boolean)`. */
  method DeviceKeys(r: Reply) returns (keys: seq<string>)
    ensures keys == DeviceKeysOf(r)
    ensures forall k :: k in keys ==> IsGuidToken(k)
  {
    var output: seq<Option<string>> := [];
    if !Readable(r) {
      return [];
    }
    var lines := SplitOn(r.stdout, '\n');
    for i := 0 to |lines|
      invariant |output| == i
      invariant forall k :: 0 <= k < i ==> output[k] == FirstGuid(lines[k])
    {
      output := output + [FirstGuid(lines[i])];
    }
    assert output == LineGuids(lines);
    keys := Somes(output);
    forall k | k in keys ensures IsGuidToken(k) {
      assert Some(k) in output;
      var j :| 0 <= j < |output| && output[j] == Some(k);
      FirstGuidIsLeftmost(lines[j]);
    }
  }

  /** What the properties query of one device says about it. */
  datatype Kind = Active | Inactive | Ignored

  /** `for (const name of names) if (text.includes(name)) return ...`: some name occurs in the text. */
  function AnyContained(text: string, names: seq<string>): bool {
    if names == [] then false
    else Contains(text, names[0]) || AnyContained(text, names[1..])
  }

  /** The loop over the names succeeds exactly when one of them occurs in the text. */
  lemma {:induction false} AnyContainedIsSome(text: string, names: seq<string>)
    ensures AnyContained(text, names) <==> exists n :: n in names && Contains(text, n)
  {
    if names != [] {
      AnyContainedIsSome(text, names[1..]);
      assert forall n :: n in names <==> n == names[0] || n in names[1..];
    }
  }

  /**
   * The callback of the properties query: active names are tried first, so a device matching both
   * lists is active; a failed or empty reply, or one matching neither list, is ignored.
   */
  function Classify(r: Reply, activeNames: seq<string>, inactiveNames: seq<string>): Kind {
    if !Readable(r) then Ignored
    else if AnyContained(r.stdout, activeNames) then Active
    else if AnyContained(r.stdout, inactiveNames) then Inactive
    else Ignored
  }

  /**
   * A device is active exactly when an active name occurs in its properties, even if an inactive
   * one does too, and inactive exactly when no active name but some inactive name occurs.
   */
  lemma ClassifyIsFirstMatch(r: Reply, activeNames: seq<string>, inactiveNames: seq<string>)
    ensures Classify(r, activeNames, inactiveNames) == Active
            <==> Readable(r) && exists n :: n in activeNames && Contains(r.stdout, n)
    ensures Classify(r, activeNames, inactiveNames) == Inactive
            <==> Readable(r) && (forall n :: n in activeNames ==> !Contains(r.stdout, n))
                 && exists n :: n in inactiveNames && Contains(r.stdout, n)
  {
    AnyContainedIsSome(r.stdout, activeNames);
    AnyContainedIsSome(r.stdout, inactiveNames);
  }

  /** The keys, in order, that the properties query puts in the list of `kind`. */
  function KeysOfKind(keys: seq<string>, props: string -> Reply, activeNames: seq<string>,
                      inactiveNames: seq<string>, kind: Kind): seq<string>
    decreases |keys|
  {
    if keys == [] then []
    else
      var init := keys[..|keys| - 1];
      var last := keys[|keys| - 1];
      KeysOfKind(init, props, activeNames, inactiveNames, kind)
      + (if Classify(props(last), activeNames, inactiveNames) == kind then [last] else [])
  }

  /** Classifying one more key extends the list of its kind by that key, and no other list. */
  lemma KeysOfKindSnoc(keys: seq<string>, i: nat, props: string -> Reply, activeNames: seq<string>,
                       inactiveNames: seq<string>, kind: Kind)
    requires i < |keys|
    ensures KeysOfKind(keys[..i + 1], props, activeNames, inactiveNames, kind)
            == KeysOfKind(keys[..i], props, activeNames, inactiveNames, kind)
               + (if Classify(props(keys[i]), activeNames, inactiveNames) == kind then [keys[i]] else [])
  {
    assert keys[..i + 1][..i] == keys[..i];
  }

  /** A key is among those of a kind exactly when it was listed and its properties classify it so. */
  lemma {:induction false} KeysOfKindMembers(keys: seq<string>, props: string -> Reply, activeNames: seq<string>,
                                             inactiveNames: seq<string>, kind: Kind, x: string)
    ensures x in KeysOfKind(keys, props, activeNames, inactiveNames, kind)
            <==> x in keys && Classify(props(x), activeNames, inactiveNames) == kind
    decreases |keys|
  {
    if keys != [] {
      var init := keys[..|keys| - 1];
      KeysOfKindMembers(init, props, activeNames, inactiveNames, kind, x);
      assert keys == init + [keys[|keys| - 1]];
    }
  }

  /** Every key lands in exactly one of the active list, the inactive list, or neither. */
  lemma {:induction false} KindsPartitionKeys(keys: seq<string>, props: string -> Reply,
                                              activeNames: seq<string>, inactiveNames: seq<string>)
    ensures |KeysOfKind(keys, props, activeNames, inactiveNames, Active)|
            + |KeysOfKind(keys, props, activeNames, inactiveNames, Inactive)|
            + |KeysOfKind(keys, props, activeNames, inactiveNames, Ignored)| == |keys|
    decreases |keys|
  {
    if keys != [] {
      KindsPartitionKeys(keys[..|keys| - 1], props, activeNames, inactiveNames);
    }
  }

  // ---------------------------------------------------------------------------------------------
  // The module as an object
  // ---------------------------------------------------------------------------------------------

  class Controller {
    var previousState: Option<bool>
    var port: Option<string>
    var written: seq<char>
    var active: seq<string>
    var inactive: seq<string>

    function State(): Snapshot
      reads this
    {
      Snapshot(previousState, port, written, active, inactive)
    }

    constructor ()
      ensures State() == Initial
    {
      previousState, port, written, active, inactive := None, None, [], [], [];
    }

    /**
     * `getAudioDeviceKeys`: `list` is the reply of the render-device query, `props(key)` that of the
     * properties query of each key; the keys are appended to the module's two lists.
     */
    method LoadAudioDevices(list: Reply, props: string -> Reply, activeNames: seq<string>, inactiveNames: seq<string>)
      modifies this
      ensures var keys := DeviceKeysOf(list);
              State() == old(State()).(
                active := old(active) + KeysOfKind(keys, props, activeNames, inactiveNames, Active),
                inactive := old(inactive) + KeysOfKind(keys, props, activeNames, inactiveNames, Inactive))
    {
      var keys := DeviceKeys(list);
      ghost var s0 := State();
      for i := 0 to |keys|
        invariant State() == s0.(
                    active := s0.active + KeysOfKind(keys[..i], props, activeNames, inactiveNames, Active),
                    inactive := s0.inactive + KeysOfKind(keys[..i], props, activeNames, inactiveNames, Inactive))
      {
        KeysOfKindSnoc(keys, i, props, activeNames, inactiveNames, Active);
        KeysOfKindSnoc(keys, i, props, activeNames, inactiveNames, Inactive);
        ghost var a := KeysOfKind(keys[..i + 1], props, activeNames, inactiveNames, Active);
        ghost var b := KeysOfKind(keys[..i + 1], props, activeNames, inactiveNames, Inactive);
        var kind := Classify(props(keys[i]), activeNames, inactiveNames);
        if kind == Active {
          active := active + [keys[i]];
          assert active == s0.active + a && inactive == s0.inactive + b;
        } else if kind == Inactive {
          inactive := inactive + [keys[i]];
          assert active == s0.active + a && inactive == s0.inactive + b;
        } else {
          assert active == s0.active + a && inactive == s0.inactive + b;
        }
      }
      assert keys[..|keys|] == keys;
    }

    /**
     * `connect`: poll until a switch with a path is listed, then create the port on it. The polls are
     * the outcomes of the successive interval firings; when none finds the switch the source keeps
     * polling forever, which the model reports as `found == false` with nothing changed.
     */
    method Connect(polls: seq<Listing>) returns (found: bool)
      modifies this
      ensures found <==> FirstConnectable(polls).Some?
      ensures found ==> State() == old(State()).(port := FirstConnectable(polls))
      ensures !found ==> State() == old(State())
    {
      var path := PollForSwitch(polls);
      found := path.Some?;
      if found {
        port := path;
      }
    }

    method SetSwitchState(state: bool)
      requires port.Some?
      modifies this
      ensures State() == SetSwitchStateStep(old(State()), state)
    {
      written := written + [StateByte(state)];
      previousState := Some(state);
    }

    /** The tray's `onClick`: entry 0 enables, entry 1 disables, entry 2 (exit) changes no state here. */
    method TrayClick(seqId: int)
      requires seqId == 0 || seqId == 1 ==> port.Some?
      modifies this
      ensures seqId == 0 ==> State() == SetSwitchStateStep(old(State()), true)
      ensures seqId == 1 ==> State() == SetSwitchStateStep(old(State()), false)
      ensures seqId != 0 && seqId != 1 ==> State() == old(State())
    {
      if seqId == 0 {
        SetSwitchState(true);
      } else if seqId == 1 {
        SetSwitchState(false);
      }
    }

    /**
     * `update`: `probe` is the listing of the connectivity check, `polls` those of the reconnect
     * loop it may start, `query(key)` the reply of each level query. `blocked` means the reconnect
     * loop never found the switch, so the source never gets past it.
     */
    method Update(probe: Listing, polls: seq<Listing>, query: string -> Reply) returns (blocked: bool)
      requires port.Some?
      requires AllParsable(active, query) && AllParsable(inactive, query)
      modifies this
      ensures blocked <==> GetSwitchDevice(probe).None? && FirstConnectable(polls).None?
      ensures blocked ==> State() == old(State())
      ensures !blocked ==>
                State() == EvaluateStep(
                  old(State()).(port := if GetSwitchDevice(probe).Some? then old(port) else FirstConnectable(polls)),
                  Preferred(GroupLevel(old(active), query), GroupLevel(old(inactive), query)))
    {
      if GetSwitchDevice(probe).None? {
        var found := Connect(polls);
        if !found {
          return true;
        }
      }
      blocked := false;
      var activeLevel := SampleGroup(active, query);
      var inactiveLevel := SampleGroup(inactive, query);
      var newState := Preferred(activeLevel, inactiveLevel);
      if previousState != Some(newState) {
        SetSwitchState(newState);
      }
    }
  }
}
