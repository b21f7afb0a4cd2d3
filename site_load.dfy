/** The site script `assets/js/load.js`: the page language read from the path, the
    rewriting of the language switchers and of the site's own links, and the
    translation of the tagged elements. */
module SiteLoad {
  import opened Common
  import opened Text

  // ---------------------------------------------------------------------------
  // The page language
  // ---------------------------------------------------------------------------

  /** sub occurs in s at position i. */
  predicate MatchesAt(s: string, sub: string, i: int)
  {
    0 <= i <= |s| - |sub| && s[i..i + |sub|] == sub
  }

  /** `s.includes(sub)`. */
  predicate HasInfix(s: string, sub: string)
  {
    exists i | 0 <= i <= |s| - |sub| :: MatchesAt(s, sub, i)
  }

  /** `getCurrentLanguage`: Arabic exactly when the path holds `/ar/`. */
  function CurrentLanguage(path: string): (lang: string)
    ensures lang == "ar" <==> HasInfix(path, "/ar/")
    ensures lang == "en" <==> !HasInfix(path, "/ar/")
  {
    if HasInfix(path, "/ar/") then "ar" else "en"
  }

  /** `s.startsWith(p)`. */
  predicate StartsWith(s: string, p: string)
  {
    |p| <= |s| && s[..|p|] == p
  }

  /** `s.endsWith(p)`. */
  predicate EndsWith(s: string, p: string)
  {
    |p| <= |s| && s[|s| - |p|..] == p
  }

  // ---------------------------------------------------------------------------
  // Language switchers
  // ---------------------------------------------------------------------------

  /** `pathSegments[pathSegments.length - 1] || 'index.html'`. */
  function PageFile(path: string): (f: string)
    ensures '/' !in f && f != []
  {
    var parts := Split(path, '/');
    var last := parts[|parts| - 1];
    if last == [] then "index.html" else last
  }

  /** The switcher's new `href`: `/<targetLang>/<current page file>`. */
  function SwitcherHref(targetLang: string, path: string): (href: string)
    ensures targetLang == "ar" || targetLang == "en" ==> CurrentLanguage(href) == targetLang
    ensures EndsWith(href, "/" + PageFile(path))
  {
    var href := "/" + targetLang + "/" + PageFile(path);
    if targetLang == "ar" || targetLang == "en" then (LanguageOfHref(targetLang, PageFile(path)); href) else href
  }

  /** The only slashes of `/xy/f`, for a file name f without one, are at 0 and 3. */
  lemma SlashesOfHref(lang: string, file: string, i: int)
    requires |lang| == 2 && '/' !in lang && '/' !in file
    requires 0 <= i < |"/" + lang + "/" + file| && ("/" + lang + "/" + file)[i] == '/'
    ensures i == 0 || i == 3
  {
  }

  /** A path `/<lang>/<file>` is in the language it names. */
  lemma LanguageOfHref(lang: string, file: string)
    requires lang == "ar" || lang == "en"
    requires '/' !in file
    ensures CurrentLanguage("/" + lang + "/" + file) == lang
  {
    var s := "/" + lang + "/" + file;
    if lang == "ar" {
      assert MatchesAt(s, "/ar/", 0);
    } else {
      forall i | 0 <= i <= |s| - 4
        ensures !MatchesAt(s, "/ar/", i)
      {
        if s[i] == '/' && s[i + 3] == '/' {
          SlashesOfHref(lang, file, i);
          SlashesOfHref(lang, file, i + 3);
          assert s[i..i + 4][1] == s[1] == 'e';
        } else {
          assert s[i..i + 4][0] == s[i] && s[i..i + 4][3] == s[i + 3];
        }
      }
    }
  }

  /** Following a switcher to "ar" or "en" lands on the same page file in that
      language, so switching again from there gives the same link. */
  lemma SwitcherLandsInTarget(targetLang: string, path: string)
    requires targetLang == "ar" || targetLang == "en"
    ensures var href := SwitcherHref(targetLang, path);
      CurrentLanguage(href) == targetLang && PageFile(href) == PageFile(path) &&
      SwitcherHref(targetLang, href) == href
  {
    HrefReadsBack(targetLang, PageFile(path));
  }

  // ---------------------------------------------------------------------------
  // The site's own links
  // ---------------------------------------------------------------------------

  /** The page a `data-lang-link` names: `home` is the index, and `.html` is added when
      missing. */
  function PageOf(pagePath: string): (seg: string)
    ensures EndsWith(seg, ".html")
    ensures pagePath != "home" && EndsWith(pagePath, ".html") ==> seg == pagePath
  {
    if pagePath == "home" then "index.html"
    else if !EndsWith(pagePath, ".html") then
      assert (pagePath + ".html")[|pagePath|..] == ".html";
      pagePath + ".html"
    else pagePath
  }

  /** Naming a page again by its file gives the same file. */
  lemma PageOfIdempotent(pagePath: string)
    ensures PageOf(PageOf(pagePath)) == PageOf(pagePath)
  {
  }

  /** A link's new `href`, or `None` when it is left as it is: an `href` starting with
      `http` (the `https` test adds nothing) and an empty or missing `data-lang-link`
      keep theirs. */
  function DynamicLink(currentHref: Option<string>, pagePath: Option<string>, userLang: string): (r: Option<string>)
    ensures currentHref.Some? && StartsWith(currentHref.value, "http") ==> r.None?
    ensures pagePath.None? || pagePath.value == [] ==> r.None?
    ensures r.Some? ==> StartsWith(r.value, "/" + userLang + "/") && EndsWith(r.value, ".html")
  {
    if currentHref.Some? && (StartsWith(currentHref.value, "http") || StartsWith(currentHref.value, "https")) then None
    else if pagePath.None? || pagePath.value == [] then None
    else
      var href := "/" + userLang + "/" + PageOf(pagePath.value);
      assert href[|href| - 5..] == PageOf(pagePath.value)[|PageOf(pagePath.value)| - 5..];
      assert href[..|"/" + userLang + "/"|] == "/" + userLang + "/";
      Some(href)
  }

  /** A rewritten link to a page file keeps the page's language and file. */
  lemma DynamicLinkStaysInLanguage(currentHref: Option<string>, pagePath: string, userLang: string)
    requires userLang == "ar" || userLang == "en"
    requires pagePath != [] && '/' !in pagePath
    requires currentHref.None? || !StartsWith(currentHref.value, "http")
    ensures var r := DynamicLink(currentHref, Some(pagePath), userLang);
      r.Some? && CurrentLanguage(r.value) == userLang && PageFile(r.value) == PageOf(pagePath)
  {
    var seg := PageOf(pagePath);
    PageOfNoSlash(pagePath);
    assert DynamicLink(currentHref, Some(pagePath), userLang) == Some("/" + userLang + "/" + seg);
    HrefReadsBack(userLang, seg);
  }

  /** A page name without a slash names a file without one. */
  lemma PageOfNoSlash(pagePath: string)
    requires '/' !in pagePath
    ensures '/' !in PageOf(pagePath)
  {
    if pagePath != "home" && !EndsWith(pagePath, ".html") {
      assert PageOf(pagePath) == pagePath + ".html";
    }
  }

  /** The path `/<lang>/<file>` is in language lang and names the file. */
  lemma HrefReadsBack(lang: string, file: string)
    requires lang == "ar" || lang == "en"
    requires '/' !in file && file != []
    ensures CurrentLanguage("/" + lang + "/" + file) == lang
    ensures PageFile("/" + lang + "/" + file) == file
  {
    LanguageOfHref(lang, file);
    SplitAfterSep("/" + lang, file, '/');
    assert "/" + lang + "/" + file == ("/" + lang) + ['/'] + file;
  }

  // ---------------------------------------------------------------------------
  // Translations
  // ---------------------------------------------------------------------------

  const English: map<string, string> := map[
    "nav_home" := "Home",
    "nav_games" := "Games",
    "nav_minesetter" := "Minesetter",
    "nav_about" := "About Us",
    "nav_contact" := "Contact",
    "lang_ar" := "العربية (AR) \U{1F30D}",
    "lang_en" := "English (EN)",
    "copyright_text" := "All rights reserved."]

  const Arabic: map<string, string> := map[
    "nav_home" := "الرئيسية",
    "nav_games" := "الألعاب",
    "nav_minesetter" := "ماينسيتر",
    "nav_about" := "من نحن",
    "nav_contact" := "اتصل بنا",
    "lang_ar" := "العربية (AR) \U{1F30D}",
    "lang_en" := "English (EN)",
    "copyright_text" := "جميع الحقوق محفوظة."]

  /** `translations[lang]`, for the two languages `getCurrentLanguage` returns. */
  function Table(lang: string): map<string, string>
  {
    if lang == "ar" then Arabic else English
  }

  /** Both tables translate the same keys, and no translation is empty. */
  lemma TablesAgree()
    ensures English.Keys == Arabic.Keys
    ensures forall k :: k in English ==> English[k] != []
    ensures forall k :: k in Arabic ==> Arabic[k] != []
  {
  }

  /** The `dir` attribute. */
  function Direction(lang: string): (d: string)
    ensures d == "rtl" <==> lang == "ar"
    ensures d == "ltr" <==> lang != "ar"
  {
    if lang == "ar" then "rtl" else "ltr"
  }

  /** An element's text after translation: the table's entry when it is there and not
      empty, otherwise the text it had. */
  function Translated(table: map<string, string>, key: string, text: string): (r: string)
    ensures key in table && table[key] != [] ==> r == table[key]
    ensures key !in table || table[key] == [] ==> r == text
    ensures text != [] ==> r != []
  {
    if key in table && table[key] != [] then table[key] else text
  }

  /** `applyTranslations` over the tagged elements, given as (key, text) pairs. */
  method ApplyTranslations(path: string, elements: seq<(string, string)>) returns (lang: string, dir: string, texts: seq<string>)
    ensures lang == CurrentLanguage(path) && dir == Direction(lang)
    ensures |texts| == |elements|
    ensures forall i :: 0 <= i < |elements| ==>
      (elements[i].0 in Table(lang) ==> texts[i] == Table(lang)[elements[i].0]) &&
      (elements[i].0 !in Table(lang) ==> texts[i] == elements[i].1)
  {
    lang := CurrentLanguage(path);
    var table := Table(lang);
    dir := if lang == "ar" then "rtl" else "ltr";
    TablesAgree();
    texts := [];
    for i := 0 to |elements|
      invariant |texts| == i
      invariant forall j :: 0 <= j < i ==> texts[j] == Translated(table, elements[j].0, elements[j].1)
    {
      var key := elements[i].0;
      if key in table && table[key] != [] {
        texts := texts + [table[key]];
      } else {
        texts := texts + [elements[i].1];
      }
    }
  }

  /** A key both tables know is translated on both sides, so switching language
      changes every translated element and leaves untranslated ones alone. */
  lemma SameKeysTranslated(key: string, text: string)
    ensures (key in Table("ar")) == (key in Table("en"))
    ensures key in Table("en") ==>
      (Translated(Table("en"), key, text) == English[key] && Translated(Table("ar"), key, text) == Arabic[key])
    ensures key !in Table("en") ==>
      (Translated(Table("en"), key, text) == text && Translated(Table("ar"), key, text) == text)
  {
    TablesAgree();
  }
}
