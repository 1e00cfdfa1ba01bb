/** `normalizeKeys`: turns a dotted key path into its list of segments. */
module Keys {

  /**
   * The argument of `normalizeKeys`: null or undefined, an array of keys, or any
   * other value, given by its string conversion `${key}`.
   */
  datatype KeyArg = Nullish | KeyList(keys: seq<string>) | Scalar(text: string)

  /** `s.split(sep)` for a one-character separator: one part more than separators, none containing it. */
  function Split(s: string, sep: char): (parts: seq<string>)
    ensures |parts| == Count(s, sep) + 1
    ensures forall i :: 0 <= i < |parts| ==> sep !in parts[i]
    decreases |s|
  {
    if s == [] then [[]]
    else
      var rest := Split(s[1..], sep);
      if s[0] == sep then [[]] + rest
      else [[s[0]] + rest[0]] + rest[1..]
  }

  /** Number of occurrences of `c` in `s`. */
  function Count(s: string, c: char): nat
    decreases |s|
  {
    if s == [] then 0 else (if s[0] == c then 1 else 0) + Count(s[1..], c)
  }

  /** `parts.join(sep)`. */
  function Join(parts: seq<string>, sep: char): string
    decreases |parts|
  {
    if |parts| == 0 then []
    else if |parts| == 1 then parts[0]
    else parts[0] + [sep] + Join(parts[1..], sep)
  }

  /** `parts.filter(Boolean)` on strings: drops the empty ones and keeps the order of the rest. */
  function DropEmpty(parts: seq<string>): (r: seq<string>)
    ensures forall i :: 0 <= i < |r| ==> r[i] != []
    ensures forall i :: 0 <= i < |r| ==> r[i] in parts
    ensures |r| <= |parts|
    ensures (forall i :: 0 <= i < |parts| ==> parts[i] != []) ==> r == parts
    decreases |parts|
  {
    if parts == [] then []
    else if parts[0] == [] then DropEmpty(parts[1..])
    else [parts[0]] + DropEmpty(parts[1..])
  }

  /** Filtering distributes over concatenation: the parts of each piece are filtered in place, in order. */
  lemma {:induction false} DropEmptyAppend(a: seq<string>, b: seq<string>)
    ensures DropEmpty(a + b) == DropEmpty(a) + DropEmpty(b)
    decreases |a|
  {
    if a == [] {
      assert a + b == b;
    } else {
      assert (a + b)[1..] == a[1..] + b;
      DropEmptyAppend(a[1..], b);
    }
  }

  /** A single part is kept exactly when it is non-empty. */
  lemma DropEmptySingle(x: string)
    ensures DropEmpty([x]) == if x == [] then [] else [x]
  {
    assert [x][1..] == [];
  }

  /** Every non-empty part survives the filter, and so does everything before and after it, in order. */
  lemma DropEmptyKeeps(a: seq<string>, x: string, b: seq<string>)
    requires x != []
    ensures DropEmpty(a + [x] + b) == DropEmpty(a) + [x] + DropEmpty(b)
  {
    DropEmptyAppend(a + [x], b);
    DropEmptyAppend(a, [x]);
    DropEmptySingle(x);
  }

  /** The concatenation of all parts. */
  function Concat(parts: seq<string>): string
    decreases |parts|
  {
    if parts == [] then [] else parts[0] + Concat(parts[1..])
  }

  /** `s` with every occurrence of `c` removed. */
  function Remove(s: string, c: char): string
    decreases |s|
  {
    if s == [] then [] else (if s[0] == c then [] else [s[0]]) + Remove(s[1..], c)
  }

  /** True of a segment list that a dotted path can spell: segments non-empty and free of dots. */
  predicate Segments(keys: seq<string>)
  {
    forall i :: 0 <= i < |keys| ==> keys[i] != [] && '.' !in keys[i]
  }

  function NormalizeKeys(key: KeyArg): (r: seq<string>)
    ensures key.Nullish? ==> r == []
    ensures key.KeyList? ==> r == key.keys
    ensures key.Scalar? ==> Segments(r)
  {
    match key
    case Nullish => []
    case KeyList(keys) => keys
    case Scalar(text) => DropEmpty(Split(text, '.'))
  }

  /** Joining the parts of a split with the same separator gives back the string. */
  lemma {:induction false} JoinSplit(s: string, sep: char)
    ensures Join(Split(s, sep), sep) == s
    decreases |s|
  {
    if s != [] {
      JoinSplit(s[1..], sep);
      var rest := Split(s[1..], sep);
      if s[0] == sep {
        assert Split(s, sep) == [[]] + rest;
        assert s == [sep] + s[1..];
      } else {
        assert s == [s[0]] + s[1..];
        if |rest| == 1 {
          assert Split(s, sep) == [[s[0]] + rest[0]];
        } else {
          assert Split(s, sep) == [[s[0]] + rest[0]] + rest[1..];
          assert Join(rest, sep) == rest[0] + [sep] + Join(rest[1..], sep);
        }
      }
    }
  }

  /** Splitting a join of separator-free parts gives back the parts. */
  lemma {:induction false} SplitJoin(parts: seq<string>, sep: char)
    requires |parts| >= 1
    requires forall i :: 0 <= i < |parts| ==> sep !in parts[i]
    ensures Split(Join(parts, sep), sep) == parts
    decreases |parts|
  {
    if |parts| == 1 {
      SplitFree(parts[0], sep);
    } else {
      SplitJoin(parts[1..], sep);
      SplitPrefix(parts[0], Join(parts[1..], sep), sep);
      assert Join(parts, sep) == parts[0] + ([sep] + Join(parts[1..], sep));
    }
  }

  /** A string without the separator splits into itself alone. */
  lemma {:induction false} SplitFree(s: string, sep: char)
    requires sep !in s
    ensures Split(s, sep) == [s]
    decreases |s|
  {
    if s != [] {
      SplitFree(s[1..], sep);
      assert s == [s[0]] + s[1..];
    }
  }

  /** A separator-free word in front of a separator becomes the first part. */
  lemma {:induction false} SplitPrefix(w: string, t: string, sep: char)
    requires sep !in w
    ensures Split(w + ([sep] + t), sep) == [w] + Split(t, sep)
    decreases |w|
  {
    var s := w + ([sep] + t);
    if w == [] {
      assert s == [sep] + t;
      assert s[1..] == t;
    } else {
      assert s[1..] == w[1..] + ([sep] + t);
      SplitPrefix(w[1..], t, sep);
      assert [w[0]] + w[1..] == w;
    }
  }

  /** Filtering out empty parts does not change their concatenation. */
  lemma {:induction false} ConcatDropEmpty(parts: seq<string>)
    ensures Concat(DropEmpty(parts)) == Concat(parts)
    decreases |parts|
  {
    if parts != [] {
      ConcatDropEmpty(parts[1..]);
    }
  }

  /** The parts of a split, put together, are the string without its separators. */
  lemma {:induction false} ConcatSplit(s: string, sep: char)
    ensures Concat(Split(s, sep)) == Remove(s, sep)
    decreases |s|
  {
    if s != [] {
      ConcatSplit(s[1..], sep);
      var rest := Split(s[1..], sep);
      if s[0] != sep {
        assert Concat(Split(s, sep)) == ([s[0]] + rest[0]) + Concat(rest[1..]);
        assert Concat(rest) == rest[0] + Concat(rest[1..]);
      }
    }
  }

  /** The segments of a scalar key are its characters other than dots, in order. */
  lemma NormalizeKeysKeepsCharacters(text: string)
    ensures Concat(NormalizeKeys(Scalar(text))) == Remove(text, '.')
  {
    ConcatDropEmpty(Split(text, '.'));
    ConcatSplit(text, '.');
  }

  /** A dotted path built from well-formed segments normalises back to exactly those segments. */
  lemma NormalizeKeysOfJoin(keys: seq<string>)
    requires Segments(keys)
    ensures NormalizeKeys(Scalar(Join(keys, '.'))) == keys
  {
    if keys == [] {
      assert Split([], '.') == [[]];
    } else {
      SplitJoin(keys, '.');
    }
  }

  /** Leading, trailing and doubled dots give empty parts. */
  lemma SplitExample()
    ensures Split(".a..bc.", '.') == ["", "a", "", "bc", ""]
  {
    SplitFree("", '.');
    SplitPrefix("bc", "", '.');
    assert "bc" + (['.'] + "") == "bc.";
    SplitPrefix("", "bc.", '.');
    assert "" + (['.'] + "bc.") == ".bc.";
    SplitPrefix("a", ".bc.", '.');
    assert "a" + (['.'] + ".bc.") == "a..bc.";
    SplitPrefix("", "a..bc.", '.');
    assert "" + (['.'] + "a..bc.") == ".a..bc.";
  }

  /** Empty segments from leading, trailing and doubled dots disappear; the others are kept in order. */
  lemma NormalizeKeysExample()
    ensures NormalizeKeys(Scalar(".a..bc.")) == ["a", "bc"]
    ensures NormalizeKeys(Scalar("")) == []
    ensures NormalizeKeys(Nullish) == []
  {
    SplitExample();
    var parts: seq<string> := ["", "a", "", "bc", ""];
    assert DropEmpty(parts[4..]) == [];
    assert DropEmpty(parts[3..]) == ["bc"];
    assert DropEmpty(parts[2..]) == ["bc"];
    assert DropEmpty(parts[1..]) == ["a", "bc"];
    SplitFree("", '.');
  }
}
