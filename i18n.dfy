/** The home page's client-side translation (Patches/i18n.js): choosing a
    language, loading its bundle with a fallback to English, writing the
    translated strings into the marked elements, and switching language. */
module I18n {
  import opened JsText

  const SUPPORTED: seq<string> := ["en", "zh-CN", "ja", "de", "es"]
  const DEFAULT_LANG: string := "en"

  // ---------------------------------------------------------------------------
  // Choosing the language

  /** The navigator's language: the first of `navigator.languages`, else
      `navigator.language`, else the default, skipping empty values. */
  function NavLanguage(navFirst: Option<string>, navLanguage: Option<string>): (nav: string)
    ensures nav != []
    ensures Truthy(navFirst) ==> nav == navFirst.value
    ensures !Truthy(navFirst) && Truthy(navLanguage) ==> nav == navLanguage.value
    ensures !Truthy(navFirst) && !Truthy(navLanguage) ==> nav == DEFAULT_LANG
  {
    if Truthy(navFirst) then navFirst.value
    else if Truthy(navLanguage) then navLanguage.value
    else DEFAULT_LANG
  }

  /** The part of a lowercased tag before its first hyphen. */
  function Base(norm: string): string {
    Split(norm, '-')[0]
  }

  /** Resolving the navigator's language: lowercase it; empty gives the
      default; an exact supported tag wins; a `zh` base gives `zh-CN`; a
      supported base is used; anything else gives the default. */
  function ResolveNav(nav: string): (r: string)
    ensures r in SUPPORTED
  {
    var norm := Lower(nav);
    if norm == [] then DEFAULT_LANG
    else if norm in SUPPORTED then norm
    else
      var base := Base(norm);
      if base == "zh" then "zh-CN"
      else if base in SUPPORTED then base
      else DEFAULT_LANG
  }

  /** The rule by base language alone, with no exact-match step. */
  function ByBase(nav: string): string {
    var base := Base(Lower(nav));
    if base == "zh" then "zh-CN" else if base in SUPPORTED then base else DEFAULT_LANG
  }

  /** A lowercased tag has no capital letter, so the exact step never picks
      `zh-CN` and only ever picks a tag that is its own base: resolving the
      navigator's language is the rule by base language alone. */
  lemma ExactStepIsSubsumed(nav: string)
    ensures ResolveNav(nav) == ByBase(nav)
  {
    var norm := Lower(nav);
    if norm == [] {
      SplitWithoutSep(norm, '-');
    } else if norm in SUPPORTED {
      assert norm[|norm| - 1] == LowerChar(nav[|nav| - 1]);
      assert norm != "zh-CN";
      assert '-' !in norm;
      SplitWithoutSep(norm, '-');
    }
  }

  /** The choice is case-insensitive in the navigator's language. */
  lemma ResolveNavIgnoresCase(nav: string)
    ensures ResolveNav(Lower(nav)) == ResolveNav(nav)
  {
    LowerIdempotent(nav);
  }

  /** Every tag of the Chinese family, `zh` itself or `zh-` followed by
      anything in any case, resolves to `zh-CN`. */
  lemma ChineseFamily(nav: string)
    requires Lower(nav) == "zh" || StartsWith(Lower(nav), "zh-")
    ensures ResolveNav(nav) == "zh-CN"
  {
    var norm := Lower(nav);
    ExactStepIsSubsumed(nav);
    if norm == "zh" {
      SplitWithoutSep(norm, '-');
    } else {
      var rest := norm[3..];
      assert norm == "zh" + ['-'] + rest;
      SplitAfterPiece("zh", rest, '-');
    }
  }

  /** `pickLang()`: a supported `?lang` value, else a supported stored value
      (both compared exactly), else the navigator's language resolved. The
      result is always supported. */
  function PickLang(param: Option<string>, stored: Option<string>,
                    navFirst: Option<string>, navLanguage: Option<string>): (r: string)
    ensures r in SUPPORTED
    ensures param.Some? && param.value in SUPPORTED ==> r == param.value
    ensures !(param.Some? && param.value in SUPPORTED) && stored.Some? && stored.value in SUPPORTED ==> r == stored.value
    ensures !(param.Some? && param.value in SUPPORTED) && !(stored.Some? && stored.value in SUPPORTED) ==>
              r == ByBase(NavLanguage(navFirst, navLanguage))
  {
    if Truthy(param) && param.value in SUPPORTED then param.value
    else if Truthy(stored) && stored.value in SUPPORTED then stored.value
    else
      var nav := NavLanguage(navFirst, navLanguage);
      ExactStepIsSubsumed(nav);
      ResolveNav(nav)
  }

  /** The `?lang` value and the stored value are compared exactly: a
      differently cased tag is ignored and the navigator decides. */
  lemma ParamIsCaseSensitive(stored: Option<string>, navFirst: Option<string>, navLanguage: Option<string>)
    requires !(stored.Some? && stored.value in SUPPORTED)
    ensures PickLang(Some("ZH-CN"), stored, navFirst, navLanguage) == ResolveNav(NavLanguage(navFirst, navLanguage))
  {
    ExactStepIsSubsumed(NavLanguage(navFirst, navLanguage));
  }

  /** The HTML `lang` attribute for a language. */
  function LangAttr(lang: string): (a: string)
    ensures lang == "zh-CN" ==> a == "zh-Hans"
    ensures lang != "zh-CN" ==> a == lang
    ensures lang in SUPPORTED ==> (a == "zh-Hans" <==> lang == "zh-CN") && a in ["en", "zh-Hans", "ja", "de", "es"]
  {
    if lang == "zh-CN" then "zh-Hans" else lang
  }

  // ---------------------------------------------------------------------------
  // Bundles

  /** A parsed JSON value. */
  datatype Json = Null | Bool(b: bool) | Num(n: int) | Str(s: string) | Obj(fields: map<string, Json>)

  /** The bundle server: the parsed body of an ok answer, or nothing when the
      fetch fails, the status is not ok, or the body is not JSON. */
  type BundleServer = string -> Option<Json>

  function BundleUrl(lang: string): string {
    "/i18n/" + lang + ".json"
  }

  /** A bundle and the URLs requested to get it, in order. */
  datatype Loaded = Loaded(bundle: Json, requested: seq<string>)

  /** `loadBundle(lang)`: the language's bundle; on failure the default
      language's; when that fails too, the empty object. At most two
      requests are made, the second only for a non-default language. */
  function LoadBundle(lang: string, server: BundleServer): (r: Loaded)
    ensures 1 <= |r.requested| <= 2 && r.requested[0] == BundleUrl(lang)
    ensures |r.requested| == 2 <==> lang != DEFAULT_LANG && server(BundleUrl(lang)).None?
    ensures |r.requested| == 2 ==> r.requested[1] == BundleUrl(DEFAULT_LANG)
    ensures r.bundle == if server(BundleUrl(lang)).Some? then server(BundleUrl(lang)).value
                        else if lang != DEFAULT_LANG && server(BundleUrl(DEFAULT_LANG)).Some?
                        then server(BundleUrl(DEFAULT_LANG)).value
                        else Obj(map[])
    decreases if lang == DEFAULT_LANG then 0 else 1
  {
    var url := BundleUrl(lang);
    match server(url)
    case Some(j) => Loaded(j, [url])
    case None =>
      if lang != DEFAULT_LANG then
        var fallback := LoadBundle(DEFAULT_LANG, server);
        Loaded(fallback.bundle, [url] + fallback.requested)
      else Loaded(Obj(map[]), [url])
  }

  /** One step of the key walk: `(acc && acc[k] != null) ? acc[k] : null`.
      Only an object has properties here. */
  function Step(acc: Json, k: string): Json {
    if acc.Obj? && k in acc.fields then acc.fields[k] else Null
  }

  /** The left fold of `Step` over the segments of a key. */
  function Walk(acc: Json, segments: seq<string>): Json
    decreases |segments|
  {
    if segments == [] then acc else Walk(Step(acc, segments[0]), segments[1..])
  }

  /** A dotted key's value in a bundle, or null. */
  function Lookup(bundle: Json, key: string): Json {
    Walk(bundle, Split(key, '.'))
  }

  /** Once the walk reaches null it stays null. */
  lemma {:induction false} WalkFromNull(segments: seq<string>)
    ensures Walk(Null, segments) == Null
  {
    if segments != [] {
      WalkFromNull(segments[1..]);
    }
  }

  /** Walking a path is walking its first part, then the rest from there. */
  lemma {:induction false} WalkAppend(acc: Json, s1: seq<string>, s2: seq<string>)
    ensures Walk(acc, s1 + s2) == Walk(Walk(acc, s1), s2)
    decreases |s1|
  {
    if s1 != [] {
      assert (s1 + s2)[1..] == s1[1..] + s2;
      WalkAppend(Step(acc, s1[0]), s1[1..], s2);
    } else {
      assert s1 + s2 == s2;
    }
  }

  /** A dotted key is successive property lookup: `a.rest` is `rest` looked up
      in the value of `a`, and null when `a` is missing. */
  lemma LookupNested(fields: map<string, Json>, a: string, rest: string)
    requires '.' !in a
    ensures Lookup(Obj(fields), a + "." + rest) == if a in fields then Lookup(fields[a], rest) else Null
  {
    assert a + "." + rest == a + ['.'] + rest;
    SplitAfterPiece(a, rest, '.');
    if a !in fields {
      WalkFromNull(Split(rest, '.'));
    }
  }

  /** A key without dots is a single property lookup. */
  lemma LookupPlain(fields: map<string, Json>, key: string)
    requires '.' !in key
    ensures Lookup(Obj(fields), key) == if key in fields then fields[key] else Null
  {
    SplitWithoutSep(key, '.');
    assert Walk(Obj(fields), [key]) == Walk(Step(Obj(fields), key), []);
  }

  /** The number a string of decimal digits spells. */
  function DecimalValue(s: string): int
    requires forall i :: 0 <= i < |s| ==> '0' <= s[i] <= '9'
  {
    if s == [] then 0 else DecimalValue(s[..|s| - 1]) * 10 + (s[|s| - 1] - '0') as int
  }

  /** `String(n)` for a natural number: its decimal digits, without leading
      zeros. */
  function Digits(n: nat): (s: string)
    ensures |s| >= 1 && forall i :: 0 <= i < |s| ==> '0' <= s[i] <= '9'
    ensures DecimalValue(s) == n
    ensures |s| > 1 ==> s[0] != '0'
  {
    var d := ['0' + (n % 10) as char];
    if n < 10 then d
    else
      var s := Digits(n / 10) + d;
      assert s[..|s| - 1] == Digits(n / 10);
      s
  }

  /** What `el.textContent = value` displays for a non-null value. */
  function ToText(j: Json): string {
    match j
    case Null => "null"
    case Bool(b) => if b then "true" else "false"
    case Num(n) => if n < 0 then "-" + Digits(-n) else Digits(n)
    case Str(s) => s
    case Obj(_) => "[object Object]"
  }

  /** An element carrying `data-i18n`: its key and its displayed text. */
  datatype Node = Node(key: string, text: string)

  /** One element after translation: the text becomes the key's value when
      the key resolves, and is left as it was otherwise. */
  function Render(node: Node, bundle: Json): (r: Node)
    ensures r.key == node.key
    ensures Lookup(bundle, node.key).Null? ==> r == node
    ensures Lookup(bundle, node.key).Str? ==> r.text == Lookup(bundle, node.key).s
  {
    var value := Lookup(bundle, node.key);
    if value.Null? then node else node.(text := ToText(value))
  }

  /** Translating twice with the same bundle is translating once. */
  lemma RenderIdempotent(node: Node, bundle: Json)
    ensures Render(Render(node, bundle), bundle) == Render(node, bundle)
  {
  }

  /** `if (lastBundle)`: JavaScript truthiness of a JSON value. */
  predicate JsonTruthy(j: Json) {
    match j
    case Null => false
    case Bool(b) => b
    case Num(n) => n != 0
    case Str(s) => s != ""
    case Obj(_) => true
  }

  // ---------------------------------------------------------------------------
  // The page

  class Page {
    /** The elements carrying `data-i18n`, in document order. */
    const nodes: array<Node>
    var lastBundle: Option<Json>
    /** `localStorage['lang']` */
    var storedLang: Option<string>
    /** The `lang` query parameter of the page URL. */
    var urlLang: Option<string>
    /** The `lang` attribute of the document element. */
    var htmlLang: Option<string>
    /** Every bundle URL requested, oldest first. */
    var requested: seq<string>

    constructor (elements: array<Node>, param: Option<string>, stored: Option<string>)
      ensures nodes == elements && lastBundle.None? && urlLang == param && storedLang == stored
      ensures htmlLang.None? && requested == []
    {
      nodes := elements;
      lastBundle := None;
      urlLang := param;
      storedLang := stored;
      htmlLang := None;
      requested := [];
    }

    /** `applyI18n(map)`: remember the bundle and translate every element. */
    method ApplyI18n(bundle: Json)
      modifies this`lastBundle, nodes
      ensures lastBundle == Some(bundle)
      ensures forall i :: 0 <= i < nodes.Length ==> nodes[i] == Render(old(nodes[i]), bundle)
    {
      lastBundle := Some(bundle);
      for i := 0 to nodes.Length
        invariant lastBundle == Some(bundle)
        invariant forall j :: 0 <= j < i ==> nodes[j] == Render(old(nodes[j]), bundle)
        invariant forall j :: i <= j < nodes.Length ==> nodes[j] == old(nodes[j])
      {
        nodes[i] := Render(nodes[i], bundle);
      }
    }

    /** `window.applyI18n()`: translate again with the last bundle, if any. */
    method Reapply()
      modifies this`lastBundle, nodes
      ensures lastBundle == old(lastBundle)
      ensures lastBundle.Some? && JsonTruthy(lastBundle.value) ==>
                forall i :: 0 <= i < nodes.Length ==> nodes[i] == Render(old(nodes[i]), lastBundle.value)
      ensures !(lastBundle.Some? && JsonTruthy(lastBundle.value)) ==> nodes[..] == old(nodes[..])
    {
      if lastBundle.Some? && JsonTruthy(lastBundle.value) {
        ApplyI18n(lastBundle.value);
      }
    }

    /** `init()`: pick the language, store it, load and apply its bundle, and
        set the document's `lang` attribute. */
    method Init(navFirst: Option<string>, navLanguage: Option<string>, server: BundleServer)
      modifies this`lastBundle, this`storedLang, this`htmlLang, this`requested, nodes
      ensures var lang := PickLang(old(urlLang), old(storedLang), navFirst, navLanguage);
        var loaded := LoadBundle(lang, server);
        && storedLang == Some(lang) && htmlLang == Some(LangAttr(lang))
        && lastBundle == Some(loaded.bundle) && requested == old(requested) + loaded.requested
        && forall i :: 0 <= i < nodes.Length ==> nodes[i] == Render(old(nodes[i]), loaded.bundle)
    {
      var lang := PickLang(urlLang, storedLang, navFirst, navLanguage);
      storedLang := Some(lang);
      var loaded := LoadBundle(lang, server);
      requested := requested + loaded.requested;
      ApplyI18n(loaded.bundle);
      htmlLang := Some(LangAttr(lang));
    }

    /** `window.setLang(newLang)`: an unsupported language changes nothing;
        a supported one is stored, loaded, applied, set as the `lang`
        attribute and written into the URL. */
    method SetLang(newLang: string, server: BundleServer)
      modifies this`lastBundle, this`storedLang, this`htmlLang, this`urlLang, this`requested, nodes
      ensures newLang !in SUPPORTED ==>
        && storedLang == old(storedLang) && urlLang == old(urlLang) && htmlLang == old(htmlLang)
        && lastBundle == old(lastBundle) && requested == old(requested) && nodes[..] == old(nodes[..])
      ensures newLang in SUPPORTED ==>
        var loaded := LoadBundle(newLang, server);
        && storedLang == Some(newLang) && urlLang == Some(newLang) && htmlLang == Some(LangAttr(newLang))
        && lastBundle == Some(loaded.bundle) && requested == old(requested) + loaded.requested
        && forall i :: 0 <= i < nodes.Length ==> nodes[i] == Render(old(nodes[i]), loaded.bundle)
    {
      if newLang !in SUPPORTED {
        return;
      }
      storedLang := Some(newLang);
      var loaded := LoadBundle(newLang, server);
      requested := requested + loaded.requested;
      ApplyI18n(loaded.bundle);
      htmlLang := Some(LangAttr(newLang));
      urlLang := Some(newLang);
    }
  }
}
