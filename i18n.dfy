/**
 * The language logic of js/i18n.js (class `I18n`): choosing a language from
 * the stored preference or the browser language, looking up dotted keys in
 * a nested translation tree, loading a translation file with a one-level
 * fallback to Spanish, and refreshing the language dropdown, the page title
 * and the typewriter's roles.
 *
 * `fetch` is replaced by a map from language code to the parsed file (a
 * language missing from the map is a failed load), `localStorage` by the
 * field `stored`, and `navigator.language` by a parameter.
 */
module I18n {
  import opened Wrappers
  import opened JsString
  import Typewriter

  const Supported: seq<string> := ["es", "en", "de", "fr"]
  const DefaultLang: string := "es"

  /** `langMap` of `detectLanguage`, in insertion order (the order `for…in` visits it). */
  const LangMap: seq<(string, string)> := [
    ("es", "es"), ("en", "en"), ("de", "de"), ("fr", "fr"),
    ("es-es", "es"), ("es-mx", "es"), ("en-us", "en"), ("en-gb", "en"),
    ("de-de", "de"), ("fr-fr", "fr")]

  /** `titles` of `updatePageTitle`. */
  const Titles: map<string, string> := map[
    "es" := "Fernando Cristerna - Portafolio ML & Data Science",
    "en" := "Fernando Cristerna - ML & Data Science Portfolio",
    "de" := "Fernando Cristerna - ML & Data Science Portfolio",
    "fr" := "Fernando Cristerna - Portfolio ML & Data Science"]

  /** The keys `updateTypewriterRoles` translates, in order. */
  const RoleKeys: seq<string> := ["hero.roles.role1", "hero.roles.role2", "hero.roles.role3"]

  /** A parsed translation file: strings at the leaves, objects inside. */
  datatype Tree = Leaf(text: string) | Branch(children: map<string, Tree>)

  /** A `.lang-option` element: its `data-lang` attribute and whether it has class `active`. */
  datatype LangOption = LangOption(lang: string, active: bool)

  /** What `loadTranslation` ends with: the language loaded, if any, and the files fetched. */
  datatype LoadOutcome = LoadOutcome(loaded: Option<string>, requests: seq<string>)

  /** JavaScript truthiness of a value in the tree: only the empty string is falsy. */
  predicate Truthy(t: Tree) {
    t.Branch? || t.text != ""
  }

  /** `if (stored)`: a missing or empty stored value is falsy. */
  predicate StoredTruthy(stored: Option<string>) {
    stored.Some? && stored.value != ""
  }

  // ---------------------------------------------------------------------
  // Language detection

  /** The value of the first table entry whose key the string starts with. */
  function FirstMatch(table: seq<(string, string)>, b: string): (r: Option<string>)
    ensures r.Some? ==> exists i :: 0 <= i < |table| && StartsWith(b, table[i].0) && table[i].1 == r.value
                                     && forall j :: 0 <= j < i ==> !StartsWith(b, table[j].0)
    ensures r.None? ==> forall i :: 0 <= i < |table| ==> !StartsWith(b, table[i].0)
  {
    if table == [] then None
    else if StartsWith(b, table[0].0) then Some(table[0].1)
    else
      var r := FirstMatch(table[1..], b);
      assert forall i :: 1 <= i < |table| ==> table[i] == table[1..][i - 1];
      r
  }

  /**
   * The `for (let key in langMap)` loop of `detectLanguage`: the value of
   * the first key, in insertion order, that the language starts with.
   */
  method ScanLangMap(table: seq<(string, string)>, lower: string) returns (r: Option<string>)
    ensures r == FirstMatch(table, lower)
  {
    for i := 0 to |table|
      invariant FirstMatch(table, lower) == FirstMatch(table[i..], lower)
    {
      var (key, lang) := table[i];
      assert table[i..][0] == (key, lang) && table[i..][1..] == table[i + 1..];
      if StartsWith(lower, key) {
        return Some(lang);
      }
    }
    assert table[|table|..] == [];
    return None;
  }

  /**
   * `detectLanguage`: the stored language if there is one; else the value
   * of the first `langMap` key the lower-cased browser language starts
   * with; else Spanish.
   */
  function Detect(stored: Option<string>, browserLang: string): (r: string)
    ensures StoredTruthy(stored) ==> r == stored.value
    ensures !StoredTruthy(stored) ==> r in Supported
  {
    if StoredTruthy(stored) then stored.value
    else match FirstMatch(LangMap, ToLower(browserLang))
      case Some(l) =>
        assert forall i :: 0 <= i < |LangMap| ==> LangMap[i].1 in Supported;
        l
      case None => DefaultLang
  }

  /**
   * Every `langMap` key begins with the two letters of the language it maps
   * to, and the first four keys are the supported languages themselves.
   */
  lemma LangMapShape()
    ensures forall i :: 0 <= i < |LangMap| ==>
              |LangMap[i].0| >= 2 && LangMap[i].0[..2] == LangMap[i].1 && LangMap[i].1 in Supported
    ensures forall k :: 0 <= k < |Supported| ==> LangMap[k].0 == Supported[k]
  {
  }

  /**
   * Without a stored language the outcome depends on the first two letters
   * only: the language they name if it is supported, Spanish otherwise.  The
   * region entries of the table (`es-mx`, `en-gb`, …) never decide the
   * outcome, since each begins with the two letters of the language it
   * maps to.
   */
  lemma DetectByTwoLetters(browserLang: string)
    ensures var lower := ToLower(browserLang);
      Detect(None, browserLang) == if |lower| >= 2 && lower[..2] in Supported then lower[..2] else DefaultLang
  {
    var lower := ToLower(browserLang);
    LangMapShape();
    match FirstMatch(LangMap, lower)
    case Some(l) =>
      var i :| 0 <= i < |LangMap| && StartsWith(lower, LangMap[i].0) && LangMap[i].1 == l;
      assert lower[..2] == LangMap[i].0[..2];
    case None =>
  }

  // ---------------------------------------------------------------------
  // Translation lookup

  /** `value[k]`: the child of an object, undefined for anything else. */
  function Child(t: Tree, k: string): Option<Tree> {
    if t.Branch? && k in t.children then Some(t.children[k]) else None
  }

  /** Plain nested access along a path, regardless of truthiness. */
  function At(t: Tree, path: seq<string>): Option<Tree>
    decreases |path|
  {
    if path == [] then Some(t)
    else match Child(t, path[0])
      case None => None
      case Some(c) => At(c, path[1..])
  }

  /** The walk of `getTranslation`: step down the path, giving up at the first falsy value. */
  function Lookup(t: Tree, path: seq<string>): (r: Option<Tree>)
    ensures path != [] && r.Some? ==> Truthy(r.value)
    decreases |path|
  {
    if path == [] then Some(t)
    else match Child(t, path[0])
      case None => None
      case Some(c) => if Truthy(c) then Lookup(c, path[1..]) else None
  }

  /**
   * On a non-empty path the walk finds exactly what plain access finds,
   * except that an empty string at the end counts as not found.  (Objects
   * are always truthy, and nothing lies below a string.)
   */
  lemma {:induction false} LookupIsAt(t: Tree, path: seq<string>)
    requires path != []
    ensures Lookup(t, path) == if At(t, path) == Some(Leaf("")) then None else At(t, path)
    decreases |path|
  {
    match Child(t, path[0])
    case None =>
    case Some(c) =>
      if path[1..] != [] {
        LookupIsAt(c, path[1..]);
      }
  }

  /** `getTranslation(key)`: the value at the dotted key, or the key itself. */
  function Translation(t: Tree, key: string): (r: Tree)
    ensures Truthy(r) || r == Leaf(key)
    ensures r != Leaf(key) ==> Lookup(t, Split(key, '.')) == Some(r)
  {
    match Lookup(t, Split(key, '.'))
    case Some(v) => v
    case None => Leaf(key)
  }

  /**
   * Any truthy value stored under a nested path, a non-empty string or an
   * object, is what its dotted key translates to.
   */
  lemma TranslationFindsValue(t: Tree, path: seq<string>, v: Tree)
    requires |path| >= 1 && forall i :: 0 <= i < |path| ==> '.' !in path[i]
    requires At(t, path) == Some(v) && Truthy(v)
    ensures Translation(t, Join(path, '.')) == v
  {
    SplitJoin(path, '.');
    LookupIsAt(t, path);
  }

  /** A key that leads nowhere, or to an empty string, translates to itself. */
  lemma TranslationFallsBack(t: Tree, key: string)
    requires At(t, Split(key, '.')).None? || At(t, Split(key, '.')) == Some(Leaf(""))
    ensures Translation(t, key) == Leaf(key)
  {
    LookupIsAt(t, Split(key, '.'));
  }

  /**
   * The translation as a string for the typewriter.  When the key names an
   * object rather than a string this falls back to the key.
   */
  function TranslationText(t: Tree, key: string): (r: string)
    ensures key != "" ==> r != ""
    ensures Translation(t, key).Leaf? ==> r == Translation(t, key).text
  {
    TextOf(Translation(t, key), key)
  }

  /** The three translated roles: never empty strings. */
  function RoleTexts(t: Tree): (r: seq<string>)
    ensures |r| == 3
    ensures forall i :: 0 <= i < 3 ==> r[i] == TranslationText(t, RoleKeys[i]) && r[i] != ""
  {
    assert forall i :: 0 <= i < 3 ==> |RoleKeys[i]| == 16;
    seq(3, i requires 0 <= i < 3 => TranslationText(t, RoleKeys[i]))
  }

  /**
   * After the typewriter's roles are replaced by translated ones, a single
   * tick brings it back to a typical state (text a prefix of the current
   * role, one character per tick from then on), whatever it was showing.
   */
  lemma TranslatedRolesRecover(t: Tree, f: Typewriter.Frame)
    requires f.index < 3
    ensures Typewriter.Typical(Typewriter.Step(f.(roles := RoleTexts(t))).0)
  {
  }

  // ---------------------------------------------------------------------
  // Page title

  /**
   * `titles[currentLang] || titles['es']`: the title table covers exactly the
   * languages `switchLanguage` accepts, and every title is non-empty.
   */
  function TitleFor(lang: string): (r: string)
    ensures lang in Supported ==> r == Titles[lang]
    ensures lang !in Supported ==> r == Titles[DefaultLang]
    ensures r != ""
  {
    if lang in Titles then Titles[lang] else Titles[DefaultLang]
  }

  // ---------------------------------------------------------------------
  // Loading

  /**
   * `loadTranslation(lang)`, given which files load: the requested file if
   * it loads; otherwise, unless it was Spanish already, one retry with
   * Spanish; so at most two files are fetched.
   */
  function Load(lang: string, server: map<string, Tree>): (r: LoadOutcome)
    ensures 1 <= |r.requests| <= 2 && r.requests[0] == lang
    ensures |r.requests| == 2 ==> lang != DefaultLang && lang !in server && r.requests[1] == DefaultLang
    ensures lang in server ==> r.loaded == Some(lang)
    ensures r.loaded.Some? ==> r.loaded.value in server && r.loaded.value == r.requests[|r.requests| - 1]
    ensures r.loaded.None? ==> forall l :: l in r.requests ==> l !in server
    // a failed non-Spanish load is followed by exactly one Spanish fetch, which decides
    ensures lang !in server && lang != DefaultLang ==>
              r.requests == [lang, DefaultLang]
              && r.loaded == (if DefaultLang in server then Some(DefaultLang) else None)
    // a failed Spanish load is not retried
    ensures lang !in server && lang == DefaultLang ==> r == LoadOutcome(None, [lang])
    decreases if lang == DefaultLang then 0 else 1
  {
    if lang in server then LoadOutcome(Some(lang), [lang])
    else if lang != DefaultLang then
      var retry := Load(DefaultLang, server);
      LoadOutcome(retry.loaded, [lang] + retry.requests)
    else LoadOutcome(None, [lang])
  }

  /** Options whose `active` flag is set exactly when their language is `lang`, nothing else changed. */
  predicate MarkedFor(options: seq<LangOption>, was: seq<LangOption>, lang: string) {
    && |options| == |was|
    && forall i :: 0 <= i < |options| ==>
         options[i].lang == was[i].lang && (options[i].active <==> options[i].lang == lang)
  }

  // ---------------------------------------------------------------------
  // The `I18n` object

  class I18n {
    var translations: Tree
    var currentLang: string
    /** The `selectedLanguage` entry of `localStorage`. */
    var stored: Option<string>
    /** The `.lang-option` elements of the dropdown. */
    var options: seq<LangOption>
    /** `document.title`. */
    var title: string

    constructor (stored: Option<string>, browserLang: string, options: seq<LangOption>, title: string)
      ensures translations == Branch(map[]) && currentLang == Detect(stored, browserLang)
      ensures this.stored == stored && this.options == options && this.title == title
    {
      translations := Branch(map[]);
      currentLang := "";
      this.stored := stored;
      this.options := options;
      this.title := title;
      new;
      var detected := DetectLanguage(browserLang);
      currentLang := if StoredTruthy(stored) then stored.value
                     else if detected != "" then detected else DefaultLang;
    }

    /** `detectLanguage()`. */
    method DetectLanguage(browserLang: string) returns (r: string)
      ensures r == Detect(stored, browserLang)
    {
      var lower := ToLower(browserLang);
      if StoredTruthy(stored) {
        return stored.value;
      }
      var found := ScanLangMap(LangMap, lower);
      if found.Some? {
        return found.value;
      }
      return DefaultLang;
    }

    /** `getTranslation(key)`. */
    method GetTranslation(key: string) returns (r: Tree)
      ensures r == Translation(translations, key)
    {
      var keys := Split(key, '.');
      var value := translations;
      for i := 0 to |keys|
        invariant Lookup(translations, keys) == Lookup(value, keys[i..])
      {
        assert keys[i..][1..] == keys[i + 1..];
        var next := Child(value, keys[i]);
        if next.None? || !Truthy(next.value) {
          return Leaf(key);
        }
        value := next.value;
      }
      assert keys[|keys|..] == [];
      return value;
    }

    /** `updateDropdownActiveState()`. */
    method UpdateDropdownActiveState()
      modifies this
      ensures MarkedFor(options, old(options), currentLang)
      ensures translations == old(translations) && currentLang == old(currentLang)
      ensures stored == old(stored) && title == old(title)
    {
      var i := 0;
      while i < |options|
        invariant 0 <= i <= |options| == |old(options)|
        invariant forall j :: 0 <= j < |options| ==> options[j].lang == old(options)[j].lang
        invariant forall j :: 0 <= j < i ==> (options[j].active <==> options[j].lang == currentLang)
        invariant forall j :: i <= j < |options| ==> options[j] == old(options)[j]
        invariant translations == old(translations) && currentLang == old(currentLang)
        invariant stored == old(stored) && title == old(title)
      {
        options := options[i := LangOption(options[i].lang, options[i].lang == currentLang)];
        i := i + 1;
      }
    }

    /**
     * `loadTranslation(lang)`: on success the translations, the current and
     * the stored language are the loaded ones and the dropdown is marked for
     * it; on failure nothing changes and Spanish is tried once.
     */
    method LoadTranslation(lang: string, server: map<string, Tree>) returns (requests: seq<string>)
      modifies this
      ensures requests == Load(lang, server).requests
      ensures Load(lang, server).loaded.Some? ==>
                var l := Load(lang, server).loaded.value;
                translations == server[l] && currentLang == l && stored == Some(l)
                && MarkedFor(options, old(options), l)
      ensures Load(lang, server).loaded.None? ==>
                translations == old(translations) && currentLang == old(currentLang)
                && stored == old(stored) && options == old(options)
      ensures title == old(title)
      decreases if lang == DefaultLang then 0 else 1
    {
      requests := [lang];
      if lang in server {
        translations := server[lang];
        currentLang := lang;
        stored := Some(lang);
        UpdateDropdownActiveState();
      } else if lang != DefaultLang {
        var retry := LoadTranslation(DefaultLang, server);
        requests := requests + retry;
      }
    }

    /** `updatePageTitle()`. */
    method UpdatePageTitle()
      modifies this
      ensures title == TitleFor(currentLang)
      ensures translations == old(translations) && currentLang == old(currentLang)
      ensures stored == old(stored) && options == old(options)
    {
      title := TitleFor(currentLang);
    }

    /** `updateTypewriterRoles()`; `tw` is `window.typewriter`, possibly absent. */
    method UpdateTypewriterRoles(tw: Typewriter.TypeWriter?)
      modifies tw
      ensures tw != null ==> tw.roles == RoleTexts(translations)
      ensures tw != null ==> tw.currentRoleIndex == old(tw.currentRoleIndex)
                             && tw.currentText == old(tw.currentText) && tw.isDeleting == old(tw.isDeleting)
    {
      if tw != null {
        tw.UpdateRoles(RoleTexts(translations));
      }
    }

    /** The parts of `updateUI()` outside the text nodes: the title and the typewriter. */
    method UpdateUI(tw: Typewriter.TypeWriter?)
      modifies this, tw
      ensures title == TitleFor(currentLang)
      ensures translations == old(translations) && currentLang == old(currentLang)
      ensures stored == old(stored) && options == old(options)
      ensures tw != null ==> tw.roles == RoleTexts(translations)
      ensures tw != null ==> tw.currentRoleIndex == old(tw.currentRoleIndex)
                             && tw.currentText == old(tw.currentText) && tw.isDeleting == old(tw.isDeleting)
    {
      UpdatePageTitle();
      UpdateTypewriterRoles(tw);
    }

    /**
     * `switchLanguage(lang)`: an unsupported language changes nothing;
     * otherwise the language is loaded (with the fallback), the page is
     * refreshed and a `languageChanged` event for `lang` is dispatched.
     */
    method SwitchLanguage(lang: string, server: map<string, Tree>, tw: Typewriter.TypeWriter?)
      returns (requests: seq<string>, event: Option<string>)
      modifies this, tw
      ensures lang !in Supported ==>
                requests == [] && event == None && unchanged(this) && (tw != null ==> unchanged(tw))
      ensures lang in Supported ==> requests == Load(lang, server).requests && event == Some(lang)
      ensures lang in Supported && Load(lang, server).loaded.Some? ==>
                var l := Load(lang, server).loaded.value;
                translations == server[l] && currentLang == l && stored == Some(l)
                && MarkedFor(options, old(options), l)
      ensures lang in Supported && Load(lang, server).loaded.None? ==>
                translations == old(translations) && currentLang == old(currentLang)
                && stored == old(stored) && options == old(options)
      ensures lang in Supported ==> title == TitleFor(currentLang)
      ensures lang in Supported && tw != null ==> tw.roles == RoleTexts(translations)
      ensures tw != null ==> tw.currentRoleIndex == old(tw.currentRoleIndex)
                             && tw.currentText == old(tw.currentText) && tw.isDeleting == old(tw.isDeleting)
    {
      if lang in Supported {
        requests := LoadTranslation(lang, server);
        UpdateUI(tw);
        event := Some(lang);
      } else {
        requests := [];
        event := None;
      }
    }

    /** `init()`: load the chosen language and refresh the page. */
    method Init(server: map<string, Tree>, tw: Typewriter.TypeWriter?) returns (requests: seq<string>)
      modifies this, tw
      ensures requests == Load(old(currentLang), server).requests
      ensures Load(old(currentLang), server).loaded.Some? ==>
                var l := Load(old(currentLang), server).loaded.value;
                translations == server[l] && currentLang == l && stored == Some(l)
                && MarkedFor(options, old(options), l)
      ensures Load(old(currentLang), server).loaded.None? ==>
                translations == old(translations) && currentLang == old(currentLang)
                && stored == old(stored) && options == old(options)
      ensures title == TitleFor(currentLang)
      ensures tw != null ==> tw.roles == RoleTexts(translations)
      ensures tw != null ==> tw.currentRoleIndex == old(tw.currentRoleIndex)
                             && tw.currentText == old(tw.currentText) && tw.isDeleting == old(tw.isDeleting)
    {
      requests := LoadTranslation(currentLang, server);
      UpdateUI(tw);
    }
  }

  /** The string a translation result gives the typewriter (see `TranslationText`). */
  function TextOf(t: Tree, key: string): string {
    match t
    case Leaf(s) => s
    case Branch(_) => key
  }
}
