/** The few `pathlib` operations the runtime relies on, on POSIX-style
    path strings: the final component (`Path.name`), its extension
    (`Path.suffix`), the parent directory (`Path.parent`) and joining
    (`Path / str`).  Paths are taken as already normalised: no repeated or
    trailing separators. */
module Paths {
  import opened Data

  /** Index of the last occurrence of `c` in `s`, if any. */
  function LastIndex(s: string, c: char): (r: Option<nat>)
    ensures r.Some? ==> r.value < |s| && s[r.value] == c
    ensures r.Some? ==> forall j :: r.value < j < |s| ==> s[j] != c
    ensures r.None? ==> forall j :: 0 <= j < |s| ==> s[j] != c
  {
    if |s| == 0 then None
    else if s[|s| - 1] == c then Some(|s| - 1)
    else LastIndex(s[..|s| - 1], c)
  }

  /** `Path(p).name`: the text after the last separator. */
  function Name(p: string): string {
    match LastIndex(p, '/')
    case None => p
    case Some(k) => p[k + 1..]
  }

  /** `Path(p).parent`: "." for a bare file name, "/" for a file in the root. */
  function Parent(p: string): string {
    match LastIndex(p, '/')
    case None => "."
    case Some(k) => if k == 0 then "/" else p[..k]
  }

  /** `Path(p).suffix`: from the last dot of the name, provided that dot is
      neither the name's first nor its last character. */
  function Suffix(p: string): string {
    var name := Name(p);
    match LastIndex(name, '.')
    case None => ""
    case Some(i) => if 0 < i < |name| - 1 then name[i..] else ""
  }

  /** The text of `Path(dir) / rel`: an absolute `rel` replaces `dir`. */
  function Join(dir: string, rel: string): string {
    if rel == "" then dir
    else if rel[0] == '/' then rel
    else if dir == "." then rel
    else if dir != "" && dir[|dir| - 1] == '/' then dir + rel
    else dir + "/" + rel
  }

  /** A path has the suffix ".py" exactly when its name ends in ".py" and
      has at least one character before that ending. */
  lemma PySuffixIff(p: string)
    ensures Suffix(p) == ".py" <==> (|Name(p)| >= 4 && Name(p)[|Name(p)| - 3..] == ".py")
  {
    var name := Name(p);
    if |name| >= 4 && name[|name| - 3..] == ".py" {
      assert name[|name| - 3] == '.' && name[|name| - 2] == 'p' && name[|name| - 1] == 'y';
      assert LastIndex(name, '.') == Some(|name| - 3);
    }
    if Suffix(p) == ".py" {
      var i := LastIndex(name, '.').value;
      assert name[i..] == ".py";
      assert |name| == i + 3;
    }
  }
}
