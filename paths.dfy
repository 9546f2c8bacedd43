/** The few `pathlib` operations the pipeline uses on '/'-separated paths:
    joining, the final component and its stem. Normalisation (collapsing
    repeated or trailing separators, "." segments) is not part of this model. */
module Paths {
  import opened Wrappers
  import opened Strings

  /** `Path(a) / b` for a relative `b`: an empty `a` is the current directory. */
  function PathJoin(a: string, b: string): string {
    if a == "" then b else a + "/" + b
  }

  /** `Path(p).name`: the text after the last '/'. */
  function Name(p: string): (r: string)
    ensures '/' !in r
  {
    AfterLast(p, '/')
  }

  /** `s.rfind(c)`: the index of the last `c`, if any. */
  function FindLast(s: string, c: char): (r: Option<nat>)
    ensures r.Some? ==> r.value < |s| && s[r.value] == c && c !in s[r.value + 1..]
    ensures r.None? <==> c !in s
  {
    if |s| == 0 then None
    else if s[|s| - 1] == c then Some(|s| - 1)
    else
      var r := FindLast(s[..|s| - 1], c);
      assert s == s[..|s| - 1] + [s[|s| - 1]];
      r
  }

  /** `Path(p).stem` of a final component: the name without its last
      suffix, where a leading or trailing '.' does not start a suffix. */
  function Stem(name: string): (r: string)
    ensures |r| <= |name| && r == name[..|r|]
    ensures '.' !in name ==> r == name
  {
    match FindLast(name, '.')
    case Some(i) => if 0 < i < |name| - 1 then name[..i] else name
    case None => name
  }

  /** The stem of `base.ext` is `base` when neither part is empty or holds a '.'. */
  lemma StemOfSuffixed(base: string, ext: string)
    requires |base| > 0 && |ext| > 0 && '.' !in base && '.' !in ext
    ensures Stem(base + "." + ext) == base
  {
    var name := base + "." + ext;
    assert name[|base|] == '.' && name[|base| + 1..] == ext;
    assert name[..|base|] == base;
  }

  /** The name of `dir/leaf` is `leaf` when it holds no '/'. */
  lemma NameOfJoin(dir: string, leaf: string)
    requires '/' !in leaf
    ensures Name(PathJoin(dir, leaf)) == leaf
  {
    if dir == "" {
      assert Split(leaf, '/') == [leaf] by {
        assert FindChar(leaf, '/').None?;
      }
    } else {
      AfterLastFree(dir, '/', leaf);
    }
  }
}
