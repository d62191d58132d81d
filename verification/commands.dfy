/** The command tuples the presentation layer puts on the command queue:
    `(target, command, args, kwargs)`. */
module Commands {
  import opened Wrappers

  /** A positional or keyword argument value. */
  datatype Arg = StrArg(s: string) | BoolArg(b: bool) | IntArg(i: int)

  /** One queued command: the target endpoint name, the operation name, the
      positional arguments and the keyword arguments. */
  datatype Command = Command(target: string, op: string, args: seq<Arg>, kwargs: map<string, Arg>)

  /** The AEB unit numbers 1..4. */
  type AebNr = n: int | 1 <= n <= 4 witness 1

  /** A command for the DPU endpoint with no keyword arguments. */
  function DpuCommand(op: string, args: seq<Arg>): Command
  {
    Command("DPU", op, args, map[])
  }

  /** `f"AEB{n}"` for a unit number. */
  function AebName(n: AebNr): string
  {
    "AEB" + [('0' as int + n) as char]
  }

  /** The four unit names, AEB1 to AEB4, in order. */
  const AebNames: seq<string> := ["AEB1", "AEB2", "AEB3", "AEB4"]

  /** `AebName` spells the unit numbers as the literal names the source writes. */
  lemma AebNamesAgree(n: AebNr)
    ensures AebName(n) == AebNames[n - 1]
  {
  }

  /** The unit number a name `AEB1`..`AEB4` stands for, if it is one. */
  function ParseAebName(s: string): (r: Option<AebNr>)
    ensures r.Some? ==> |s| == 4 && s[..3] == "AEB"
  {
    if |s| == 4 && s[..3] == "AEB" && '1' <= s[3] <= '4' then Some(s[3] as int - '0' as int) else None
  }

  /** The unit names decode back to their numbers, so distinct units get
      distinct names. */
  lemma AebNameRoundTrip(n: AebNr)
    ensures ParseAebName(AebName(n)) == Some(n)
  {
    assert AebName(n)[..3] == "AEB";
  }

  /** Python's `s.endswith(suffix)`. */
  predicate EndsWith(s: string, suffix: string)
  {
    |suffix| <= |s| && s[|s| - |suffix|..] == suffix
  }
}
