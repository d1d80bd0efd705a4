/** Small value types shared by all the models. */
module Common {

  datatype Option<+T> = None | Some(value: T)

  type Byte = b: int | 0 <= b < 256

  /** The character at an index, or NUL one past the end (src/wchar_ext.rs:217-224).
      The code panics for larger indices, so they are not allowed here either. */
  function CharAt(s: string, i: nat): char
    requires i <= |s|
  {
    if i == |s| then '\0' else s[i]
  }

  predicate OneLine(text: string) {
    forall i :: 0 <= i < |text| ==> text[i] != '\n'
  }

  function JoinStrings(vals: seq<string>, sep: char): string {
    if vals == [] then "" else if |vals| == 1 then vals[0] else vals[0] + [sep] + JoinStrings(vals[1..], sep)
  }

  // ---------------------------------------------------------------- processes that lock files

  type Pid = nat
  type Inode = nat

  /** The lock table when a process lets go of what it holds. */
  function Released(locks: map<Inode, Pid>, pid: Pid): map<Inode, Pid> {
    map ino | ino in locks && locks[ino] != pid :: locks[ino]
  }
}
