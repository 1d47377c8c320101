/**
 The command line that start logs: arguments joined by spaces into a buffer of 512 bytes with
 snprintf (src/main.c, log_oci_start_summary). Arguments are shorter than INT_MAX; a NULL
 argument counts as an empty one.
 */
module BoundedJoin {

  const SIZE := 512
  const NUL := '\0'

  function Joined(args: seq<string>): string {
    if args == [] then ""
    else if |args| == 1 then args[0]
    else Joined(args[..|args| - 1]) + " " + args[|args| - 1]
  }

  function Take(s: string, n: nat): string {
    if |s| <= n then s else s[..n]
  }

  /** The buffer reads as `s`: its characters, then NUL. */
  ghost predicate Reads(cmd: array<char>, s: string)
    reads cmd
  {
    |s| < cmd.Length && cmd[..|s|] == s && cmd[|s|] == NUL
  }

  /** snprintf at an offset: as much as fits with a NUL behind it; the result is what would have
      been written. */
  method Snprintf(cmd: array<char>, off: nat, text: string) returns (n: nat)
    requires off < cmd.Length
    modifies cmd
    ensures n == |text|
    ensures cmd[..off] == old(cmd[..off])
    ensures var written := Take(text, cmd.Length - off - 1);
            cmd[off..off + |written|] == written && cmd[off + |written|] == NUL
  {
    var written := Take(text, cmd.Length - off - 1);
    for k := 0 to |written|
      invariant cmd[..off] == old(cmd[..off]) && cmd[off..off + k] == written[..k]
    {
      cmd[off + k] := written[k];
    }
    cmd[off + |written|] := NUL;
    n := |text|;
  }

  /** What the loop produces: nothing if there is no first argument or an empty one. */
  function Command(args: seq<string>): string {
    if args == [] || args[0] == "" then "" else Take(Joined(args), SIZE - 1)
  }

  lemma {:induction false} JoinedGrows(args: seq<string>, i: nat)
    requires 0 < i <= |args|
    ensures Joined(args[..i]) <= Joined(args)
  {
    if i < |args| {
      JoinedGrows(args[..|args| - 1], i);
      assert args[..|args| - 1][..i] == args[..i];
    } else {
      assert args[..i] == args;
    }
  }

  lemma JoinedSnoc(args: seq<string>, i: nat)
    requires i < |args|
    ensures Joined(args[..i + 1]) == Joined(args[..i]) + (if i == 0 then "" else " ") + args[i]
  {
    assert args[..i + 1][..i] == args[..i];
  }

  /** Once the first arguments fill the buffer, or are all there is, the rest does not matter. */
  lemma CutShort(args: seq<string>, i: nat)
    requires 0 < i <= |args| && (i == |args| || |Joined(args[..i])| >= SIZE - 1)
    ensures Take(Joined(args), SIZE - 1) == Take(Joined(args[..i]), SIZE - 1)
  {
    if i == |args| {
      assert args[..i] == args;
    } else {
      JoinedGrows(args, i);
    }
  }

  /** When the loop ends, for whatever reason, what it has written is the command line. */
  lemma Finished(args: seq<string>, i: nat)
    requires i <= |args| && (i > 0 ==> args[0] != "")
    requires i == |args| || |Joined(args[..i])| >= SIZE - 1 || (i == 0 && args[0] == "")
    ensures Take(Joined(args[..i]), SIZE - 1) == Command(args)
  {
    if i > 0 {
      CutShort(args, i);
    }
  }

  /** snprintf behind what the buffer reads as. */
  method Append(cmd: array<char>, off: nat, text: string, ghost before: string) returns (n: nat)
    requires cmd.Length == SIZE && off == |before| < SIZE - 1 && Reads(cmd, before)
    modifies cmd
    ensures n == |text|
    ensures Reads(cmd, Take(before + text, SIZE - 1))
  {
    n := Snprintf(cmd, off, text);
    ghost var written := Take(text, SIZE - off - 1);
    assert cmd[..off + |written|] == before + written;
    assert Take(before + text, SIZE - 1) == before + written;
  }

  /** One turn of the loop. */
  method PutArgument(cmd: array<char>, args: seq<string>, i: nat, off: nat) returns (n: nat)
    requires cmd.Length == SIZE && i < |args| && (i > 0 ==> args[0] != "")
    requires off == |Joined(args[..i])| < SIZE - 1 && Reads(cmd, Joined(args[..i]))
    modifies cmd
    ensures off + n == |Joined(args[..i + 1])| && (n == 0 <==> i == 0 && args[0] == "")
    ensures Reads(cmd, Take(Joined(args[..i + 1]), SIZE - 1))
  {
    var text := (if i == 0 then "" else " ") + args[i];
    JoinedSnoc(args, i);
    n := Append(cmd, off, text, Joined(args[..i]));
  }

  method JoinCommand(args: seq<string>) returns (cmd: array<char>, off: nat)
    ensures fresh(cmd) && cmd.Length == 512 && Reads(cmd, Command(args))
    ensures off == |Command(args)| <= 511
  {
    cmd := new char[SIZE](_ => NUL);
    off := 0;
    var i := 0;
    while i < |args| && off < SIZE - 1
      invariant i <= |args| && off == |Joined(args[..i])| <= SIZE - 1 && Reads(cmd, Joined(args[..i]))
      invariant i > 0 ==> args[0] != ""
    {
      var n := PutArgument(cmd, args, i, off);
      if n <= 0 { break; }
      if n >= SIZE - off {
        Finished(args, i + 1);
        off := SIZE - 1;
        return;
      }
      off := off + n;
      i := i + 1;
    }
    Finished(args, i);
  }

  /** The buffer holds the first 511 characters of the joined arguments exactly when it is not
      the case that an empty first argument is followed by others. */
  lemma CommandIsJoinIff(args: seq<string>)
    ensures Command(args) == (if |Joined(args)| <= 511 then Joined(args) else Joined(args)[..511]) <==>
            !(|args| >= 2 && args[0] == "")
  {
    if |args| >= 2 && args[0] == "" {
      JoinedGrows(args, 2);
      JoinedSnoc(args, 1);
      assert |Joined(args[..2])| > 0;
    }
  }

  /** The join of one more argument is the join so far, a space, and the argument. */
  lemma JoinOfOneMore(args: seq<string>, arg: string)
    ensures Joined([]) == "" && Joined([arg]) == arg
    ensures args != [] ==> Joined(args + [arg]) == Joined(args) + " " + arg
  {
    assert (args + [arg])[..|args|] == args;
  }

  /** An empty first argument hides the rest. */
  lemma EmptyFirstArgumentHides()
    ensures Joined(["", "x"]) == " x" && Command(["", "x"]) == ""
  {
    assert ["", "x"][..1] == [""];
    assert Joined([""]) == "";
  }
}
