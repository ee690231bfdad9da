/**
 * String helpers the session code relies on: `std::string::find` (used to
 * recognise the "maximum duration" closure message) and the comma splitting
 * done by `switch_separate_string` for alternate language codes.
 */
module Strings {
  import opened Wrappers

  /** `p` occurs in `s` starting at index `i`. */
  predicate OccursAt(s: string, p: string, i: nat) {
    i + |p| <= |s| && s[i..i + |p|] == p
  }

  /** `p` occurs somewhere in `s`: the reference definition for `Contains`. */
  ghost predicate Occurs(s: string, p: string) {
    exists i: nat :: OccursAt(s, p, i)
  }

  /** The first index at or after `from` where `p` occurs in `s`, as `std::string::find`. */
  function Find(s: string, p: string, from: nat): (r: Option<nat>)
    ensures r.Some? ==> from <= r.value && OccursAt(s, p, r.value)
    ensures r.Some? ==> forall j: nat :: from <= j < r.value ==> !OccursAt(s, p, j)
    ensures r.None? ==> forall j: nat :: from <= j ==> !OccursAt(s, p, j)
    decreases |s| - from
  {
    if from + |p| > |s| then None
    else if s[from..from + |p|] == p then Some(from)
    else Find(s, p, from + 1)
  }

  /** `find(p) != npos`. */
  function Contains(s: string, p: string): (b: bool)
    ensures b <==> Occurs(s, p)
  {
    var r := Find(s, p, 0);
    if r.Some? then
      assert OccursAt(s, p, r.value);
      true
    else
      false
  }

  /** All `d`-separated fields of `s`, empty fields included. */
  function Split(s: string, d: char): (r: seq<string>)
    ensures |r| >= 1
    ensures forall k :: 0 <= k < |r| ==> d !in r[k]
  {
    if |s| == 0 then [""]
    else
      var rest := Split(s[1..], d);
      if s[0] == d then [""] + rest
      else [[s[0]] + rest[0]] + rest[1..]
  }

  /** The fields `fs` joined with the separator `d`: the inverse of `Split`. */
  function Join(fs: seq<string>, d: char): string
    requires |fs| >= 1
  {
    if |fs| == 1 then fs[0] else fs[0] + [d] + Join(fs[1..], d)
  }

  /** Joining the fields of `s` gives `s` back: nothing is lost by the split. */
  lemma {:induction false} JoinSplit(s: string, d: char)
    ensures Join(Split(s, d), d) == s
  {
    if |s| > 0 {
      var rest := Split(s[1..], d);
      JoinSplit(s[1..], d);
      assert s == [s[0]] + s[1..];
      if s[0] == d {
        assert ([""] + rest)[1..] == rest;
      } else {
        JoinExtendFirst(s[0], rest, d);
      }
    }
  }

  /** Prepending a character to the first field prepends it to the joined string. */
  lemma JoinExtendFirst(c: char, fs: seq<string>, d: char)
    requires |fs| >= 1
    ensures Join([[c] + fs[0]] + fs[1..], d) == [c] + Join(fs, d)
  {
    var gs := [[c] + fs[0]] + fs[1..];
    assert gs[1..] == fs[1..];
    if |fs| > 1 {
      assert ([c] + fs[0]) + [d] + Join(fs[1..], d) == [c] + (fs[0] + [d] + Join(fs[1..], d));
    }
  }

  /** Splitting joined separator-free fields gives the fields back. */
  lemma {:induction false} SplitJoin(fs: seq<string>, d: char)
    requires |fs| >= 1
    requires forall k :: 0 <= k < |fs| ==> d !in fs[k]
    ensures Split(Join(fs, d), d) == fs
  {
    if |fs| == 1 {
      SplitField(fs[0], d);
    } else {
      SplitJoin(fs[1..], d);
      SplitFieldThen(fs[0], d, Join(fs[1..], d));
      assert [fs[0]] + fs[1..] == fs;
    }
  }

  /** A field without separators splits to itself. */
  lemma {:induction false} SplitField(f: string, d: char)
    requires d !in f
    ensures Split(f, d) == [f]
  {
    if |f| > 0 {
      SplitField(f[1..], d);
      assert [f[0]] + f[1..] == f;
    }
  }

  /** A separator-free field followed by a separator and a tail splits as the field then the tail's fields. */
  lemma {:induction false} SplitFieldThen(f: string, d: char, t: string)
    requires d !in f
    ensures Split(f + [d] + t, d) == [f] + Split(t, d)
  {
    if |f| == 0 {
      assert f + [d] + t == [d] + t;
      assert ([d] + t)[1..] == t;
    } else {
      var s := f + [d] + t;
      assert s[0] == f[0] && s[1..] == f[1..] + [d] + t;
      SplitFieldThen(f[1..], d, t);
      assert [f[0]] + f[1..] == f;
    }
  }

  /** A string ending in the separator splits into fields whose last one is empty. */
  lemma {:induction false} SplitTrailing(s: string, d: char)
    requires |s| > 0 && s[|s| - 1] == d
    ensures |Split(s, d)| >= 2 && Split(s, d)[|Split(s, d)| - 1] == ""
  {
    if |s| > 1 {
      SplitTrailing(s[1..], d);
    }
  }

  /** Joining one more field appends the separator and that field. */
  lemma {:induction false} JoinSnoc(fs: seq<string>, f: string, d: char)
    requires |fs| >= 1
    ensures Join(fs + [f], d) == Join(fs, d) + [d] + f
  {
    var gs := fs + [f];
    if |fs| > 1 {
      assert gs[1..] == fs[1..] + [f];
      JoinSnoc(fs[1..], f, d);
      assert fs[0] + [d] + (Join(fs[1..], d) + [d] + f) == (fs[0] + [d] + Join(fs[1..], d)) + [d] + f;
    }
  }

  /**
   * The fields a left-to-right scan of a non-empty `s` opens: a field starts at
   * the beginning and after every separator that is not the last character.
   * So a separator at the very end opens no empty field, while empty fields
   * elsewhere are kept.
   */
  function Fields(s: string, d: char): (r: seq<string>)
    requires s != ""
  {
    var fs := Split(s, d);
    if s[|s| - 1] == d then
      SplitTrailing(s, d);
      fs[..|fs| - 1]
    else
      fs
  }

  /** Joining the fields gives `s` back, less the separator a trailing one leaves behind. */
  lemma JoinFields(s: string, d: char)
    requires s != ""
    ensures |Fields(s, d)| >= 1
    ensures forall k :: 0 <= k < |Fields(s, d)| ==> d !in Fields(s, d)[k]
    ensures s[|s| - 1] == d ==> Join(Fields(s, d), d) + [d] == s
    ensures s[|s| - 1] != d ==> Join(Fields(s, d), d) == s
  {
    var fs := Split(s, d);
    JoinSplit(s, d);
    if s[|s| - 1] == d {
      SplitTrailing(s, d);
      var n := |fs| - 1;
      assert fs == fs[..n] + [""];
      JoinSnoc(fs[..n], "", d);
      assert Join(fs[..n], d) + [d] + "" == Join(fs[..n], d) + [d];
    }
  }

  /**
   * `switch_separate_string(s, d, array, max)`: at most `max` of the fields of
   * `s`, in order; an empty string has no fields.
   */
  function SeparateString(s: string, d: char, max: nat): (r: seq<string>)
    ensures |r| <= max
    ensures forall k :: 0 <= k < |r| ==> d !in r[k]
    ensures s == "" ==> r == []
    ensures s != "" ==> r == Fields(s, d)[..if |Fields(s, d)| < max then |Fields(s, d)| else max]
  {
    if s == "" then []
    else
      var fs := Fields(s, d);
      JoinFields(s, d);
      if |fs| <= max then fs else fs[..max]
  }

  /** A trailing separator opens no field; an empty field between two separators is kept. */
  lemma SeparateStringEdges()
    ensures SeparateString("a,", ',', 3) == ["a"]
    ensures SeparateString("a,,b", ',', 3) == ["a", "", "b"]
  {
    assert Split(",", ',') == ["", ""] by { assert ","[1..] == ""; }
    assert Split("a,", ',') == ["a", ""] by { assert "a,"[1..] == ","; assert ['a'] + "" == "a"; }
    assert Split("b", ',') == ["b"] by { assert "b"[1..] == ""; assert ['b'] + "" == "b"; }
    assert Split(",b", ',') == ["", "b"] by { assert ",b"[1..] == "b"; }
    assert Split(",,b", ',') == ["", "", "b"] by { assert ",,b"[1..] == ",b"; }
    assert Split("a,,b", ',') == ["a", "", "b"] by { assert "a,,b"[1..] == ",,b"; }
  }
}
