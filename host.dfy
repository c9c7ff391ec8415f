/**
 * What the two controllers share: the byte they write for a switch state, and what they receive
 * from the host tools they shell out to, namely the reply of a `reg query` (its priority-level
 * field) and the port records printed by `serialport-list -f json`.
 * The processes themselves are not modelled; their results are inputs.
 */
module Host {
  import opened Common
  import opened Text
  import opened JsNumber

  /** `String(Number(state))`: the byte either controller writes to set the switch, `'1'` for on and `'0'` for off. */
  function StateByte(state: bool): char {
    if state then '1' else '0'
  }

  /** The two states are told apart on the wire: equal bytes mean equal states. */
  lemma StateByteDistinct(a: bool, b: bool)
    ensures StateByte(a) == StateByte(b) <==> a == b
    ensures StateByte(a) == '1' || StateByte(a) == '0'
  {
  }

  /** The two arguments `exec` hands its callback: whether it failed, and the captured standard output. */
  datatype Reply = Reply(error: bool, stdout: string)

  /** `!(error || !stdout)`: the reply is worth parsing. */
  predicate Readable(r: Reply) {
    !r.error && r.stdout != []
  }

  /**
   * `s[i + 2..j]` is the second piece of `s.split('0x')`: `i` is the first occurrence of `0x` and `j`
   * the next one after it, or the end of `s`.
   */
  predicate SecondPiece(s: string, i: int, j: int) {
    0 <= i && i + 2 <= j <= |s| && OccursAt(s, "0x", i)
    && (forall k :: 0 <= k < i ==> !OccursAt(s, "0x", k))
    && (forall k :: i + 2 <= k < j ==> !OccursAt(s, "0x", k))
    && (j == |s| || OccursAt(s, "0x", j))
  }

  /**
   * `s.split('0x')[1]`: the text between the first `0x` and the next one (or the end).
   * Without any `0x` the source indexes past the split result and then throws, hence the requirement.
   */
  function FieldAfter0x(s: string): string
    requires Contains(s, "0x")
  {
    ContainsIndexOf(s, "0x");
    var i := IndexOf(s, "0x", 0).value;
    var next := IndexOf(s, "0x", i + 2);
    s[i + 2..if next.Some? then next.value else |s|]
  }

  /** The field is the second piece of the split, and holds no `0x` of its own. */
  lemma FieldAfter0xIsSecondPiece(s: string)
    requires Contains(s, "0x")
    ensures exists i, j :: SecondPiece(s, i, j) && FieldAfter0x(s) == s[i + 2..j]
    ensures !Contains(FieldAfter0x(s), "0x")
  {
    ContainsIndexOf(s, "0x");
    var i := IndexOf(s, "0x", 0).value;
    var next := IndexOf(s, "0x", i + 2);
    var j := if next.Some? then next.value else |s|;
    assert SecondPiece(s, i, j);
    SliceAvoids0x(s, i + 2, j);
  }

  /** A slice of `s` in which no `0x` of `s` starts holds no `0x`. */
  lemma SliceAvoids0x(s: string, lo: nat, hi: nat)
    requires lo <= hi <= |s|
    requires forall k :: lo <= k < hi ==> !OccursAt(s, "0x", k)
    ensures !Contains(s[lo..hi], "0x")
  {
    var f := s[lo..hi];
    forall k | 0 <= k <= |f| - 2 ensures !OccursAt(f, "0x", k) {
      assert f[k] == s[lo + k] && f[k + 1] == s[lo + k + 1];
      assert f[k..k + 2] == [f[k], f[k + 1]];
      assert s[lo + k..lo + k + 2] == [s[lo + k], s[lo + k + 1]];
      assert !OccursAt(s, "0x", lo + k);
    }
  }

  /** `parseInt(stdout.split('0x')[1].padStart(6, '0'), 16)`: the priority level in a `reg query` reply. */
  function RegistryLevel(stdout: string): JsNum
    requires Contains(stdout, "0x")
  {
    ParseIntHex(PadStart(FieldAfter0x(stdout), 6, '0'))
  }

  /**
   * When the field after the first `0x` starts with a hexadecimal digit (and not with a second `0X`
   * prefix), the level is the value of its leading hexadecimal digits: the zero-padding to six
   * characters changes nothing.
   */
  lemma RegistryLevelIsLeadingDigits(stdout: string)
    requires Contains(stdout, "0x")
    requires var f := FieldAfter0x(stdout);
             f != [] && IsHexDigit(f[0]) && !(|f| >= 2 && f[0] == '0' && f[1] == 'X')
    ensures var f := FieldAfter0x(stdout);
            RegistryLevel(stdout) == ParseIntHex(f) == Num(HexValue(HexPrefix(f)))
  {
    var f := FieldAfter0x(stdout);
    assert !OccursAt(f, "0x", 0);
    PadStartKeepsParse(f);
  }

  lemma PadStartKeepsParse(f: string)
    requires f != [] && IsHexDigit(f[0]) && !(|f| >= 2 && f[0] == '0' && (f[1] == 'x' || f[1] == 'X'))
    ensures ParseIntHex(PadStart(f, 6, '0')) == ParseIntHex(f) == Num(HexValue(HexPrefix(f)))
  {
    var padded := PadStart(f, 6, '0');
    var zeros := padded[..|padded| - |f|];
    assert padded == zeros + f;
    PadStartKeepsHexValue(zeros, f);
  }

  /** A port record of `serialport-list -f json`: only the properties the controllers read. */
  datatype ListedPort = ListedPort(friendlyName: Option<string>, path: Option<string>)

  /**
   * The outcome of `serialport-list -f json`: `exec` failed, it printed nothing, or it printed a
   * JSON array of ports (the parsing itself is not modelled).
   */
  datatype Listing = ListFailed | ListEmpty | Listed(ports: seq<ListedPort>)

  /** `friendlyName?.includes('Arduino Leonardo')` */
  predicate IsSwitch(p: ListedPort) {
    p.friendlyName.Some? && Contains(p.friendlyName.value, "Arduino Leonardo")
  }

  /** `arduino.path` is truthy: present and not empty. */
  predicate HasPath(p: ListedPort) {
    p.path.Some? && p.path.value != []
  }

  /** `ports.find(IsSwitch)`: the first port that looks like the switch, if any. */
  function FirstSwitch(ports: seq<ListedPort>): Option<ListedPort>
    decreases |ports|
  {
    if ports == [] then None
    else if IsSwitch(ports[0]) then Some(ports[0])
    else FirstSwitch(ports[1..])
  }

  /** `find` yields nothing exactly when no port matches, and otherwise the first matching port. */
  lemma {:induction false} FirstSwitchIsFirst(ports: seq<ListedPort>)
    ensures FirstSwitch(ports).None? <==> forall k :: 0 <= k < |ports| ==> !IsSwitch(ports[k])
    ensures FirstSwitch(ports).Some? ==>
              exists i :: 0 <= i < |ports| && ports[i] == FirstSwitch(ports).value && IsSwitch(ports[i])
                          && forall k :: 0 <= k < i ==> !IsSwitch(ports[k])
    decreases |ports|
  {
    if ports != [] && !IsSwitch(ports[0]) {
      var rest := ports[1..];
      FirstSwitchIsFirst(rest);
      assert forall k :: 1 <= k < |ports| ==> ports[k] == rest[k - 1];
      if FirstSwitch(rest).Some? {
        var i :| 0 <= i < |rest| && rest[i] == FirstSwitch(rest).value && IsSwitch(rest[i])
                 && forall k :: 0 <= k < i ==> !IsSwitch(rest[k]);
        assert ports[i + 1] == rest[i];
      }
    } else if ports != [] {
      assert ports[0] == FirstSwitch(ports).value;
    }
  }
}
