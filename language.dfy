/** The language context: the current language, chosen from a cookie and
    changed by the user; the document direction it implies; and the lookup
    of dotted keys such as `"dashboard.title"` in the nested dictionary of
    that language, falling back to the key itself. */
module Language {
  import opened Wrappers

  datatype Lang = En | Ar

  datatype Direction = Ltr | Rtl

  /** The language code written to the cookie and the document (`'en'`, `'ar'`). */
  function Code(l: Lang): (c: string)
    ensures |c| == 2
  {
    match l
    case En => "en"
    case Ar => "ar"
  }

  /** The initial language: English when the `lang` cookie reads `'en'`, and
      Arabic for any other value or no cookie at all. */
  function InitialLang(cookie: Option<string>): (l: Lang)
    ensures l == En <==> cookie == Some("en")
    ensures l == Ar <==> cookie != Some("en")
  {
    if cookie == Some("en") then En else Ar
  }

  /** The document direction: right-to-left exactly for Arabic. */
  function Dir(l: Lang): (d: Direction)
    ensures d == Rtl <==> l == Ar
    ensures d == Ltr <==> l == En
  {
    match l
    case Ar => Rtl
    case En => Ltr
  }

  /** The cookie a language writes is read back as that language. */
  lemma CookieRoundTrip(l: Lang)
    ensures InitialLang(Some(Code(l))) == l
  {
    if l == Ar {
      assert Code(l)[0] == 'a';
    }
  }

  // ---------------------------------------------------------------------------
  // Dotted keys

  /** `s.split(sep)`: the pieces between separators, empty pieces included;
      a string with no separator is a single piece. */
  function Split(s: string, sep: char): (parts: seq<string>)
    ensures |parts| >= 1
    ensures forall i :: 0 <= i < |parts| ==> sep !in parts[i]
    ensures |parts| == 1 <==> sep !in s
  {
    if s == [] then [[]]
    else
      var rest := Split(s[1..], sep);
      if s[0] == sep then [[]] + rest
      else [[s[0]] + rest[0]] + rest[1..]
  }

  /** `parts.join(sep)`. */
  function Join(parts: seq<string>, sep: char): string
    requires |parts| >= 1
  {
    if |parts| == 1 then parts[0] else parts[0] + [sep] + Join(parts[1..], sep)
  }

  /** Splitting loses nothing: joining the pieces gives back the key. */
  lemma {:induction false} JoinSplit(s: string, sep: char)
    ensures Join(Split(s, sep), sep) == s
  {
    if s != [] {
      var rest := Split(s[1..], sep);
      JoinSplit(s[1..], sep);
      if s[0] == sep {
        assert Split(s, sep)[1..] == rest;
      } else {
        var parts := Split(s, sep);
        assert parts[0] == [s[0]] + rest[0];
        if |rest| > 1 {
          assert parts[1..] == rest[1..];
        }
        assert s == [s[0]] + s[1..];
      }
    }
  }

  /** Pieces free of the separator come back unchanged from joining and splitting. */
  lemma {:induction false} SplitJoin(parts: seq<string>, sep: char)
    requires |parts| >= 1
    requires forall i :: 0 <= i < |parts| ==> sep !in parts[i]
    ensures Split(Join(parts, sep), sep) == parts
    decreases |parts|, |parts[0]|
  {
    var first := parts[0];
    if first == [] {
      if |parts| > 1 {
        SplitJoin(parts[1..], sep);
        assert Join(parts, sep) == [sep] + Join(parts[1..], sep);
        assert [first] + parts[1..] == parts;
      }
    } else {
      var shorter := [first[1..]] + parts[1..];
      assert sep !in shorter[0];
      assert forall i :: 1 <= i < |shorter| ==> shorter[i] == parts[i];
      SplitJoin(shorter, sep);
      JoinFirst(parts, sep);
      assert first == [first[0]] + first[1..];
      assert shorter[1..] == parts[1..];
    }
  }

  /** Joining starts with the first piece's first character. */
  lemma JoinFirst(parts: seq<string>, sep: char)
    requires |parts| >= 1 && parts[0] != []
    ensures Join(parts, sep) == [parts[0][0]] + Join([parts[0][1..]] + parts[1..], sep)
  {
    var shorter := [parts[0][1..]] + parts[1..];
    assert shorter[1..] == parts[1..];
    assert parts[0] == [parts[0][0]] + parts[0][1..];
  }

  // ---------------------------------------------------------------------------
  // Nested dictionaries

  /** A dictionary entry: a string or a nested object. */
  datatype Value = Text(text: string) | Dict(entries: map<string, Value>)

  /** `current[key]`; `None` is `undefined`. Only objects have entries here. */
  function Index(v: Value, key: string): (r: Option<Value>)
    ensures r.Some? <==> v.Dict? && key in v.entries
    ensures r.Some? ==> r.value == v.entries[key]
  {
    match v
    case Dict(entries) => if key in entries then Some(entries[key]) else None
    case Text(_) => None
  }

  /** `obj[p0][p1]...[pn]`, undefined as soon as a step is undefined. */
  function Descend(v: Option<Value>, path: seq<string>): Option<Value>
    decreases |path|
  {
    if path == [] then v
    else if v.None? then None
    else Descend(Index(v.value, path[0]), path[1..])
  }

  /** Once undefined, the walk stays undefined. */
  lemma {:induction false} DescendUndefined(path: seq<string>)
    ensures Descend(None, path) == None
  {
  }

  /** The walk follows the segments left to right: walking a longer path is
      walking its first part and then the rest from where that ends. */
  lemma {:induction false} DescendAppend(v: Option<Value>, front: seq<string>, back: seq<string>)
    ensures Descend(v, front + back) == Descend(Descend(v, front), back)
    decreases |front|
  {
    if front == [] {
      assert front + back == back;
    } else if v.None? {
      DescendUndefined(back);
    } else {
      assert (front + back)[1..] == front[1..] + back;
      DescendAppend(Index(v.value, front[0]), front[1..], back);
    }
  }

  /** `getDescendantProp` returns undefined as soon as an intermediate value is undefined. */
  lemma UndefinedStepStops(v: Option<Value>, front: seq<string>, back: seq<string>)
    requires Descend(v, front) == None
    ensures Descend(v, front + back) == None
  {
    DescendAppend(v, front, back);
    DescendUndefined(back);
  }

  /** `getDescendantProp(obj, desc)`: splits the key at every `.` and walks
      down one segment at a time, giving up at the first undefined step. */
  method GetDescendantProp(obj: Value, desc: string) returns (r: Option<Value>)
    ensures r == Descend(Some(obj), Split(desc, '.'))
  {
    var arr := Split(desc, '.');
    var current := Some(obj);
    var i := 0;
    while i < |arr|
      invariant 0 <= i <= |arr|
      invariant Descend(current, arr[i..]) == Descend(Some(obj), arr)
    {
      if current.None? {
        return None;
      }
      current := Index(current.value, arr[i]);
      i := i + 1;
    }
    return current;
  }

  /** JavaScript truthiness of a looked-up value: undefined and the empty string are falsy. */
  predicate Truthy(v: Option<Value>) {
    v.Some? && (v.value.Dict? || v.value.text != "")
  }

  /** `t(key)`: the value found under the dotted key when it is truthy, and
      otherwise the key itself. */
  function Translation(dictionary: Value, key: string): (r: Value)
    ensures var found := Descend(Some(dictionary), Split(key, '.'));
      && (Truthy(found) ==> r == found.value)
      && (!Truthy(found) ==> r == Text(key))
    ensures r.Text? && r.text == "" ==> key == ""
  {
    var value := Descend(Some(dictionary), Split(key, '.'));
    if Truthy(value) then value.value else Text(key)
  }

  /** A key with no entry is shown as itself. */
  lemma MissingKeyShowsKey(dictionary: Value, key: string)
    requires Descend(Some(dictionary), Split(key, '.')) == None
    ensures Translation(dictionary, key) == Text(key)
  {
  }

  /** Any key whose dot-free segments lead through nested objects to a
      truthy value (an object, or a non-empty string) gives that value. */
  lemma NestedKeyFound(dictionary: Value, parts: seq<string>, v: Value)
    requires |parts| >= 1 && forall i :: 0 <= i < |parts| ==> '.' !in parts[i]
    requires Descend(Some(dictionary), parts) == Some(v) && Truthy(Some(v))
    ensures Translation(dictionary, Join(parts, '.')) == v
  {
    SplitJoin(parts, '.');
  }

  /** For example `"dashboard.title"`, a section object holding a non-empty string. */
  lemma SectionKeyFound(section: string, name: string, entries: map<string, Value>, text: string)
    requires '.' !in section && '.' !in name
    requires section in entries && entries[section].Dict? && name in entries[section].entries
    requires entries[section].entries[name] == Text(text) && text != ""
    ensures Translation(Dict(entries), section + "." + name) == Text(text)
  {
    var path := [section, name];
    assert Join(path, '.') == section + "." + name;
    assert Descend(Some(Dict(entries)), path) == Descend(Some(entries[section]), path[1..]);
    assert Descend(Some(entries[section]), path[1..]) == Descend(Some(Text(text)), []);
    NestedKeyFound(Dict(entries), path, Text(text));
  }

  /** The provider's state: the language, the `lang` cookie and the two dictionaries. */
  class LanguageContext {
    var lang: Lang
    var cookie: Option<string>
    const en: Value
    const ar: Value

    /** The provider mounts with the language the cookie names. */
    constructor(cookieJar: Option<string>, en: Value, ar: Value)
      ensures lang == InitialLang(cookieJar) && cookie == cookieJar
      ensures this.en == en && this.ar == ar
    {
      lang := InitialLang(cookieJar);
      cookie := cookieJar;
      this.en := en;
      this.ar := ar;
    }

    /** `dictionaries[lang]`. */
    function Dictionary(): Value
      reads this
    {
      if lang == En then en else ar
    }

    /** The direction the effect writes to the document for the current language. */
    function DocumentDir(): (d: Direction)
      reads this
      ensures d == Rtl <==> lang == Ar
    {
      Dir(lang)
    }

    /** `setLanguage`: switches the language and writes its code to the cookie. */
    method SetLanguage(newLang: Lang)
      modifies this
      ensures lang == newLang && cookie == Some(Code(newLang))
    {
      lang := newLang;
      cookie := Some(Code(newLang));
    }

    /** `t(key)` in the current language. */
    method T(key: string) returns (r: Value)
      ensures r == Translation(Dictionary(), key)
    {
      var value := GetDescendantProp(Dictionary(), key);
      if Truthy(value) {
        r := value.value;
      } else {
        r := Text(key);
      }
    }
  }

  /** `setLanguage` is followed by a page reload: the new provider reads the
      cookie just written and starts in the chosen language. */
  method ReloadAfterSetLanguage(cookieJar: Option<string>, en: Value, ar: Value, choice: Lang)
    returns (reloaded: Lang)
    ensures reloaded == choice
  {
    var context := new LanguageContext(cookieJar, en, ar);
    context.SetLanguage(choice);
    var next := new LanguageContext(context.cookie, en, ar);
    CookieRoundTrip(choice);
    reloaded := next.lang;
  }
}
