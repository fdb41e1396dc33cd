/**
 * The host-side command serialiser of controller.rs: `build_report` fills a zeroed
 * 65-byte vector in place, the `cmd_*` constructors pass it their arguments, and
 * the target commands parse a colon-separated hex address first. The HID device
 * itself is not modelled: each command returns the report it would write.
 */
module Controller {
  import opened Wire

  const REPORT_TYPE_COMMAND: byte := 0x02
  const COMMAND_SCRIPT_MOVE_MOUSE: byte := 0x15
  const COMMAND_SCRIPT_INJECT: byte := 0x17
  const COMMAND_SCRIPT_INJECT_TARGET: byte := 0x16
  const COMMAND_SCRIPT_PASSIVE_ENUM: byte := 0x19
  const COMMAND_SCRIPT_CLEAR: byte := 0x14
  const COMMAND_SCRIPT_PRESS: byte := 0x12

  /** 64 bytes of report plus the leading report ID. */
  const REPORT_LENGTH: nat := 65
  /** The most argument bytes that fit after the ID, type and command bytes. */
  const MAX_ARGS: nat := REPORT_LENGTH - 3

  /** A built report: ID 0, then type, command, the arguments, and zeros up to 65 bytes. */
  predicate IsReport(report: seq<byte>, reportType: byte, cmd: byte, args: seq<byte>)
  {
    && |args| <= MAX_ARGS
    && |report| == REPORT_LENGTH
    && report[0] == 0 && report[1] == reportType && report[2] == cmd
    && report[3..3 + |args|] == args
    && (forall i :: 3 + |args| <= i < REPORT_LENGTH ==> report[i] == 0)
  }

  /** `build_report`; arguments longer than 62 bytes make the slice panic, so they are excluded. */
  method BuildReport(reportType: byte, cmd: byte, args: seq<byte>) returns (report: seq<byte>)
    requires |args| <= MAX_ARGS
    ensures IsReport(report, reportType, cmd, args)
  {
    var buffer := new byte[REPORT_LENGTH](_ => 0);
    buffer[1] := reportType;
    buffer[2] := cmd;
    var i := 0;
    while i < |args|
      invariant 0 <= i <= |args|
      invariant buffer[0] == 0 && buffer[1] == reportType && buffer[2] == cmd
      invariant forall k :: 0 <= k < i ==> buffer[3 + k] == args[k]
      invariant forall k :: 3 + i <= k < REPORT_LENGTH ==> buffer[k] == 0
    {
      buffer[3 + i] := args[i];
      i := i + 1;
    }
    report := buffer[..];
  }

  /** Two reports built for the same command with different arguments differ. */
  lemma ReportDeterminesArgs(r: seq<byte>, reportType: byte, cmd: byte, a: seq<byte>, b: seq<byte>)
    requires IsReport(r, reportType, cmd, a) && IsReport(r, reportType, cmd, b) && |a| == |b|
    ensures a == b
  {
  }

  /** `cmd_mouse`: x and y big-endian two's-complement in bytes 3-4 and 5-6, then the two button bytes. */
  method CmdMouse(x: int16, y: int16, left: byte, right: byte) returns (report: seq<byte>)
    ensures |report| == REPORT_LENGTH
    ensures IsReport(report, REPORT_TYPE_COMMAND, COMMAND_SCRIPT_MOVE_MOUSE, report[3..9])
    ensures SignedBigEndian16(report[3], report[4]) == x
    ensures SignedBigEndian16(report[5], report[6]) == y
    ensures report[7] == left && report[8] == right
  {
    var args := new byte[6](_ => 0);
    args[0] := HighByte16(x);
    args[1] := LowByte(x);
    args[2] := HighByte16(y);
    args[3] := LowByte(y);
    args[4] := left;
    args[5] := right;
    BigEndian16RoundTrip(x);
    BigEndian16RoundTrip(y);
    report := BuildReport(REPORT_TYPE_COMMAND, COMMAND_SCRIPT_MOVE_MOUSE, args[..]);
    assert report[3..9] == args[..];
  }

  /** `cmd_inject`: type 0x02, command 0x17, no arguments. */
  method CmdInject() returns (report: seq<byte>)
    ensures IsReport(report, REPORT_TYPE_COMMAND, COMMAND_SCRIPT_INJECT, [])
  {
    report := BuildReport(REPORT_TYPE_COMMAND, COMMAND_SCRIPT_INJECT, []);
  }

  /** `cmd_clear`: type 0x02, command 0x14, no arguments. */
  method CmdClear() returns (report: seq<byte>)
    ensures IsReport(report, REPORT_TYPE_COMMAND, COMMAND_SCRIPT_CLEAR, [])
  {
    report := BuildReport(REPORT_TYPE_COMMAND, COMMAND_SCRIPT_CLEAR, []);
  }

  /** `cmd_press`: type 0x02, command 0x12, the key code as the one argument. */
  method CmdPress(key: byte) returns (report: seq<byte>)
    ensures IsReport(report, REPORT_TYPE_COMMAND, COMMAND_SCRIPT_PRESS, [key])
  {
    report := BuildReport(REPORT_TYPE_COMMAND, COMMAND_SCRIPT_PRESS, [key]);
  }

  // ---------------------------------------------------------------------------
  // The address parser

  predicate IsHexDigit(ch: char)
  {
    ('0' <= ch <= '9') || ('a' <= ch <= 'f') || ('A' <= ch <= 'F')
  }

  /** The strings the parser is modelled on: ASCII hex digits and colons only (no sign, which `from_str_radix` would take). */
  predicate TargetSyntax(s: string)
  {
    forall i :: 0 <= i < |s| ==> s[i] == ':' || IsHexDigit(s[i])
  }

  predicate AllHex(s: string)
  {
    forall i :: 0 <= i < |s| ==> IsHexDigit(s[i])
  }

  function HexValue(ch: char): (v: nat)
    requires IsHexDigit(ch)
    ensures v < 16
  {
    if '0' <= ch <= '9' then ch as int - '0' as int
    else if 'a' <= ch <= 'f' then ch as int - 'a' as int + 10
    else ch as int - 'A' as int + 10
  }

  /** `replace(":", "")`. */
  function StripColons(s: string): (r: string)
    ensures |r| <= |s|
    ensures forall i :: 0 <= i < |r| ==> r[i] != ':'
    ensures TargetSyntax(s) ==> AllHex(r)
  {
    if s == [] then []
    else (if s[0] == ':' then [] else [s[0]]) + StripColons(s[1..])
  }

  /** `chunks(2)` then `from_str_radix(chunk, 16)`: pairs read as one byte, an odd last digit alone. */
  function ParseChunks(s: string): (bytes: seq<byte>)
    requires AllHex(s)
    ensures |bytes| == (|s| + 1) / 2
    ensures forall k :: 0 <= k < |s| / 2 ==> bytes[k] == 16 * HexValue(s[2 * k]) + HexValue(s[2 * k + 1])
    ensures |s| % 2 == 1 ==> bytes[|bytes| - 1] == HexValue(s[|s| - 1])
    decreases |s|
  {
    if |s| == 0 then []
    else if |s| == 1 then [HexValue(s[0])]
    else [16 * HexValue(s[0]) + HexValue(s[1])] + ParseChunks(s[2..])
  }

  /** The byte string the target commands send. */
  function ParseTarget(target: string): (bytes: seq<byte>)
    requires TargetSyntax(target)
    ensures |bytes| == (|StripColons(target)| + 1) / 2
  {
    ParseChunks(StripColons(target))
  }

  /** `cmd_inject_target`; a target of more than 62 bytes makes `build_report` panic. */
  method CmdInjectTarget(target: string) returns (report: seq<byte>)
    requires TargetSyntax(target) && |ParseTarget(target)| <= MAX_ARGS
    ensures IsReport(report, REPORT_TYPE_COMMAND, COMMAND_SCRIPT_INJECT_TARGET, ParseTarget(target))
  {
    report := BuildReport(REPORT_TYPE_COMMAND, COMMAND_SCRIPT_INJECT_TARGET, ParseTarget(target));
  }

  /** `cmd_passive_enum`: the same parse under command 0x19. */
  method CmdPassiveEnum(target: string) returns (report: seq<byte>)
    requires TargetSyntax(target) && |ParseTarget(target)| <= MAX_ARGS
    ensures IsReport(report, REPORT_TYPE_COMMAND, COMMAND_SCRIPT_PASSIVE_ENUM, ParseTarget(target))
  {
    report := BuildReport(REPORT_TYPE_COMMAND, COMMAND_SCRIPT_PASSIVE_ENUM, ParseTarget(target));
  }

  // ---------------------------------------------------------------------------
  // Round trip of the address format

  /** A group of the usual address notation: two hex digits. */
  predicate IsGroup(g: string)
  {
    |g| == 2 && IsHexDigit(g[0]) && IsHexDigit(g[1])
  }

  function GroupValue(g: string): byte
    requires IsGroup(g)
  {
    16 * HexValue(g[0]) + HexValue(g[1])
  }

  /** Groups joined by ':'. */
  function JoinGroups(groups: seq<string>): string
  {
    if |groups| == 0 then ""
    else if |groups| == 1 then groups[0]
    else groups[0] + ":" + JoinGroups(groups[1..])
  }

  /** Groups written one after the other. */
  function Concat(groups: seq<string>): string
  {
    if groups == [] then "" else groups[0] + Concat(groups[1..])
  }

  /** Removing the colons keeps every other character, as often as it occurs in `s`. */
  lemma {:induction false} StripColonsKeepsOthers(s: string)
    ensures multiset(StripColons(s)) == multiset(s)[':' := 0]
    decreases |s|
  {
    if s != [] {
      StripColonsKeepsOthers(s[1..]);
      assert s == [s[0]] + s[1..];
      assert multiset(s) == multiset([s[0]]) + multiset(s[1..]);
      var head := if s[0] == ':' then [] else [s[0]];
      assert multiset(StripColons(s)) == multiset(head) + multiset(StripColons(s[1..]));
    }
  }

  lemma {:induction false} StripColonsAppend(a: string, b: string)
    ensures StripColons(a + b) == StripColons(a) + StripColons(b)
    decreases |a|
  {
    if a != [] {
      assert (a + b)[1..] == a[1..] + b;
      StripColonsAppend(a[1..], b);
    } else {
      assert a + b == b;
    }
  }

  lemma StripColonsGroup(g: string)
    requires IsGroup(g)
    ensures StripColons(g) == g
  {
    assert StripColons(g[1..][1..]) == [];
    assert StripColons(g[1..]) == [g[1]];
    assert g == [g[0], g[1]];
  }

  lemma {:induction false} StripJoinedGroups(groups: seq<string>)
    requires forall i :: 0 <= i < |groups| ==> IsGroup(groups[i])
    ensures StripColons(JoinGroups(groups)) == Concat(groups)
    decreases |groups|
  {
    if |groups| == 1 {
      StripColonsGroup(groups[0]);
      assert Concat(groups[1..]) == "";
    } else if |groups| > 1 {
      StripColonsAppend(groups[0] + ":", JoinGroups(groups[1..]));
      StripColonsAppend(groups[0], ":");
      StripColonsGroup(groups[0]);
      assert StripColons(":") == [];
      StripJoinedGroups(groups[1..]);
    }
  }

  lemma ParseGroupThenRest(g: string, rest: string)
    requires IsGroup(g) && AllHex(rest)
    ensures AllHex(g + rest)
    ensures ParseChunks(g + rest) == [GroupValue(g)] + ParseChunks(rest)
  {
    var s := g + rest;
    assert s[2..] == rest;
    assert AllHex(s) by {
      forall i | 0 <= i < |s|
        ensures IsHexDigit(s[i])
      {
        if i >= 2 {
          assert s[i] == rest[i - 2];
        }
      }
    }
  }

  lemma {:induction false} ParseConcatenatedGroups(groups: seq<string>)
    requires forall i :: 0 <= i < |groups| ==> IsGroup(groups[i])
    ensures AllHex(Concat(groups))
    ensures |ParseChunks(Concat(groups))| == |groups|
    ensures forall i :: 0 <= i < |groups| ==> ParseChunks(Concat(groups))[i] == GroupValue(groups[i])
    decreases |groups|
  {
    if groups != [] {
      ParseConcatenatedGroups(groups[1..]);
      ParseGroupThenRest(groups[0], Concat(groups[1..]));
      var p := ParseChunks(Concat(groups));
      assert p == [GroupValue(groups[0])] + ParseChunks(Concat(groups[1..]));
      forall i | 0 <= i < |groups|
        ensures p[i] == GroupValue(groups[i])
      {
        if i > 0 {
          assert p[i] == ParseChunks(Concat(groups[1..]))[i - 1];
          assert groups[1..][i - 1] == groups[i];
        }
      }
    }
  }

  /**
   * For any number of two-digit groups joined by ':', the parsed target is exactly
   * the groups' values in order.
   */
  lemma TargetRoundTrip(groups: seq<string>)
    requires forall i :: 0 <= i < |groups| ==> IsGroup(groups[i])
    ensures TargetSyntax(JoinGroups(groups))
    ensures |ParseTarget(JoinGroups(groups))| == |groups|
    ensures forall i :: 0 <= i < |groups| ==> ParseTarget(JoinGroups(groups))[i] == GroupValue(groups[i])
  {
    StripJoinedGroups(groups);
    ParseConcatenatedGroups(groups);
    JoinedGroupsSyntax(groups);
  }

  lemma {:induction false} JoinedGroupsSyntax(groups: seq<string>)
    requires forall i :: 0 <= i < |groups| ==> IsGroup(groups[i])
    ensures TargetSyntax(JoinGroups(groups))
    decreases |groups|
  {
    if |groups| > 1 {
      JoinedGroupsSyntax(groups[1..]);
      var s := JoinGroups(groups);
      var rest := JoinGroups(groups[1..]);
      assert s == groups[0] + ":" + rest;
      forall i | 0 <= i < |s|
        ensures s[i] == ':' || IsHexDigit(s[i])
      {
        if i >= 3 {
          assert s[i] == rest[i - 3];
        }
      }
    }
  }

  lemma AppendSyntax(a: string, b: string)
    requires TargetSyntax(a) && TargetSyntax(b)
    ensures TargetSyntax(a + b)
  {
    var t := a + b;
    forall i | 0 <= i < |t|
      ensures t[i] == ':' || IsHexDigit(t[i])
    {
      if i >= |a| {
        assert t[i] == b[i - |a|];
      }
    }
  }

  /**
   * Colons are removed before chunking, so they do not delimit bytes: inserting
   * a colon anywhere leaves the parsed target unchanged ("1:23:4" reads as "1234").
   */
  lemma ColonsDoNotDelimit(a: string, b: string)
    requires TargetSyntax(a) && TargetSyntax(b)
    ensures TargetSyntax(a + ":" + b) && TargetSyntax(a + b)
    ensures ParseTarget(a + ":" + b) == ParseTarget(a + b)
  {
    AppendSyntax(a, ":");
    AppendSyntax(a + ":", b);
    AppendSyntax(a, b);
    StripColonsAppend(a + ":", b);
    StripColonsAppend(a, ":");
    StripColonsAppend(a, b);
    var colon := StripColons(":");
    assert colon == StripColons(":"[1..]);
    assert StripColons(a + ":" + b) == StripColons(a + b);
  }
}
