/**
 * The parts of `pathlib.PurePath` the programs read off a POSIX path: the
 * final component (`name`), its suffix and its stem.
 */
module Paths {
  import opened Text

  /** The last path component, as `Path(p).name` gives it: empty and `.` components are dropped. */
  function Name(p: string): (n: string)
    ensures '/' !in n
  {
    SplitPieces(p, '/');
    LastComponent(Split(p, '/'))
  }

  function LastComponent(parts: seq<string>): (n: string)
    requires forall k :: 0 <= k < |parts| - 1 ==> '/' !in parts[k]
    requires |parts| > 0 ==> '/' !in parts[|parts| - 1]
    ensures '/' !in n
  {
    if parts == [] then ""
    else if parts[|parts| - 1] in {"", "."} then LastComponent(parts[..|parts| - 1])
    else parts[|parts| - 1]
  }

  /** `str.rfind` for one character: the last index holding `c`, or -1. */
  function RFind(s: string, c: char): (i: int)
    ensures -1 <= i < |s|
    ensures i >= 0 ==> s[i] == c
    ensures forall j :: i < j < |s| ==> s[j] != c
  {
    if s == [] then -1
    else if s[|s| - 1] == c then |s| - 1
    else RFind(s[..|s| - 1], c)
  }

  /** `PurePath.suffix`: from the last dot of the name, unless that dot opens or ends the name. */
  function Suffix(name: string): (x: string)
    ensures x == [] || (x[0] == '.' && '.' !in x[1..] && EndsWith(name, x) && |x| < |name|)
  {
    var i := RFind(name, '.');
    if 0 < i < |name| - 1 then name[i..] else ""
  }

  /** `PurePath.stem`: the name without its suffix. */
  function Stem(name: string): (st: string)
    ensures st + Suffix(name) == name
    ensures Suffix(name) != [] ==> st != []
  {
    name[..|name| - |Suffix(name)|]
  }
}
