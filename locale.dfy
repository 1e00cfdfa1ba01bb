/** `getLocaleString(meta, key)`: a localised metadata attribute such as `@name:zh-CN`. */
module Locale {

  /** `meta[name]` for string-valued metadata; a missing attribute reads as falsy, like "". */
  function Lookup(meta: map<string, string>, name: string): string
  {
    if name in meta then meta[name] else ""
  }

  /** `s.indexOf(c)`: the first position of `c`, or -1. */
  function IndexOfChar(s: string, c: char): (i: int)
    ensures -1 <= i < |s|
    ensures i == -1 <==> c !in s
    ensures 0 <= i ==> s[i] == c && c !in s[..i]
    decreases |s|
  {
    if s == [] then -1
    else if s[0] == c then 0
    else
      var j := IndexOfChar(s[1..], c);
      if j == -1 then -1 else j + 1
  }

  /** `toLowerCase` on ASCII letters; other characters are kept. */
  function ToLower(s: string): string
  {
    seq(|s|, i requires 0 <= i < |s| => if 'A' <= s[i] <= 'Z' then (s[i] as int + 32) as char else s[i])
  }

  /**
   * The languages tried, in order: when there is only one and it has a region
   * after a '-' (not at position 0), its base language is tried after it.
   */
  function Languages(languages: seq<string>): seq<string>
  {
    if |languages| == 1 then
      var i := IndexOfChar(languages[0], '-');
      if i > 0 then languages + [languages[0][..i]] else languages
    else languages
  }

  /** The attribute `key:lang` if it is non-empty, else the attribute for the lower-cased tag. */
  function ForLanguage(meta: map<string, string>, key: string, lang: string): string
  {
    var exact := Lookup(meta, key + ":" + lang);
    if exact != "" then exact else Lookup(meta, key + ":" + ToLower(lang))
  }

  /** The map-then-find scan over the languages: the first non-empty lookup, "" when none. */
  function FirstFound(meta: map<string, string>, key: string, langs: seq<string>): string
    decreases |langs|
  {
    if langs == [] then ""
    else
      var here := ForLanguage(meta, key, langs[0]);
      if here != "" then here else FirstFound(meta, key, langs[1..])
  }

  /** The scan finds the lookup of the first language that has one, and "" only when none does. */
  lemma {:induction false} FirstFoundSpec(meta: map<string, string>, key: string, langs: seq<string>)
    ensures var r := FirstFound(meta, key, langs);
      r == "" <==> forall i :: 0 <= i < |langs| ==> ForLanguage(meta, key, langs[i]) == ""
    ensures var r := FirstFound(meta, key, langs);
      r != "" ==> exists i :: 0 <= i < |langs| && r == ForLanguage(meta, key, langs[i]) &&
                             (forall j :: 0 <= j < i ==> ForLanguage(meta, key, langs[j]) == "")
    decreases |langs|
  {
    if langs != [] && ForLanguage(meta, key, langs[0]) == "" {
      var tail := langs[1..];
      FirstFoundSpec(meta, key, tail);
      var r := FirstFound(meta, key, tail);
      forall i | 0 <= i < |tail| ensures tail[i] == langs[i + 1] { }
      if r != "" {
        var i :| 0 <= i < |tail| && r == ForLanguage(meta, key, tail[i]) &&
          forall j :: 0 <= j < i ==> ForLanguage(meta, key, tail[j]) == "";
        forall j | 0 <= j < i + 1 ensures ForLanguage(meta, key, langs[j]) == "" {
          if j > 0 { assert langs[j] == tail[j - 1]; }
        }
        assert r == ForLanguage(meta, key, langs[i + 1]);
      } else {
        forall i | 0 <= i < |langs| ensures ForLanguage(meta, key, langs[i]) == "" {
          if i > 0 { assert langs[i] == tail[i - 1]; }
        }
      }
    }
  }

  /**
   * `getLocaleString(meta, key)` with the browser's language list passed in: the
   * attribute for the first language that has one, else the plain attribute, else "".
   */
  function GetLocaleString(meta: map<string, string>, key: string, languages: seq<string>): (r: string)
    ensures var langs := Languages(languages);
      (exists i :: 0 <= i < |langs| && ForLanguage(meta, key, langs[i]) != "") ==>
        exists i :: 0 <= i < |langs| && r == ForLanguage(meta, key, langs[i]) && r != "" &&
                    (forall j :: 0 <= j < i ==> ForLanguage(meta, key, langs[j]) == "")
    ensures var langs := Languages(languages);
      (forall i :: 0 <= i < |langs| ==> ForLanguage(meta, key, langs[i]) == "") ==> r == Lookup(meta, key)
  {
    FirstFoundSpec(meta, key, Languages(languages));
    var found := FirstFound(meta, key, Languages(languages));
    if found != "" then found else Lookup(meta, key)
  }

  /** A single `zh-CN` is also tried as `zh`. */
  lemma LanguagesExample()
    ensures Languages(["zh-CN"]) == ["zh-CN", "zh"]
    ensures Languages(["-x"]) == ["-x"]
    ensures Languages(["zh-CN", "en"]) == ["zh-CN", "en"]
  {
    assert "zh-CN"[2] == '-' && "zh-CN"[..2] == "zh";
    assert "zh-CN"[..2] == ['z', 'h'];
    assert 'z' != '-' && 'h' != '-';
    assert IndexOfChar("zh-CN", '-') == 2;
    assert "-x"[0] == '-';
  }

  /** With only the base-language attribute present, the single regional language finds it. */
  lemma BaseLanguageExample()
    ensures GetLocaleString(map["name" := "Style", "name:zh" := "Yangshi"], "name", ["zh-CN"]) == "Yangshi"
  {
    var meta := map["name" := "Style", "name:zh" := "Yangshi"];
    LanguagesExample();
    var full := "name" + ":" + "zh-CN";
    assert |full| == 10;
    assert full !in meta;
    assert ToLower("zh-CN") == "zh-cn";
    assert "name" + ":" + "zh-cn" !in meta by { assert |"name" + ":" + "zh-cn"| == 10; }
    assert ForLanguage(meta, "name", "zh-CN") == "";
    assert "name" + ":" + "zh" == "name:zh";
    assert ForLanguage(meta, "name", "zh") == "Yangshi";
    assert ["zh-CN", "zh"][1..] == ["zh"];
  }

  /** An upper-case region in the browser's tag also finds a lower-case attribute. */
  lemma LowerCaseExample()
    ensures GetLocaleString(map["name" := "Style", "name:zh-cn" := "Yangshi"], "name", ["zh-CN", "en"]) == "Yangshi"
  {
    var meta := map["name" := "Style", "name:zh-cn" := "Yangshi"];
    LanguagesExample();
    var full := "name" + ":" + "zh-CN";
    assert full[8] == 'C';
    assert full !in meta;
    assert ToLower("zh-CN") == "zh-cn";
    assert "name" + ":" + "zh-cn" == "name:zh-cn";
    assert ForLanguage(meta, "name", "zh-CN") == "Yangshi";
  }

  /** With no localised attribute the plain one is used, and "" when that is missing too. */
  lemma DefaultExample()
    ensures GetLocaleString(map["name" := "Style"], "name", ["fr"]) == "Style"
    ensures GetLocaleString(map[], "name", []) == ""
  {
    var meta := map["name" := "Style"];
    assert Languages(["fr"]) == ["fr"] by {
      assert "fr"[0] != '-' && "fr"[1] != '-';
      assert IndexOfChar("fr", '-') == -1;
    }
    assert "name" + ":" + "fr" !in meta by { assert |"name" + ":" + "fr"| == 7; }
    assert "name" + ":" + ToLower("fr") !in meta by { assert |"name" + ":" + ToLower("fr")| == 7; }
    assert ["fr"][1..] == [];
  }
}
