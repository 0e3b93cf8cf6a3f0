/**
 * The webview's translations: the language tables, the choice of the current language from
 * the browser's language tag, and the lookup that falls back to English and then to the key.
 */
module Lang {
  import opened Text

  /** A language table: key to translated string. */
  type Table = map<string, string>

  const EnUS: Table := map[
    "save" := "Save",
    "copyMarkdown" := "Copy Markdown",
    "copyHtml" := "Copy HTML",
    "resetConfig" := "Reset config",
    "resetConfirm" := "Are you sure to reset the markdown-editor's config?",
    "alignLeft" := "Align Left",
    "alignCenter" := "Align Center",
    "alignRight" := "Align Right",
    "insertRowAbove" := "Insert Row Above",
    "insertRowBelow" := "Insert Row Below",
    "insertColumnLeft" := "Insert Column Left",
    "insertColumnRight" := "Insert Column Right",
    "delete-row" := "Delete Row",
    "delete-column" := "Delete Column"]

  const JaJP: Table := map["save" := "保存する"]

  const KoKR: Table := map["save" := "저장"]

  const ZhCN: Table := map[
    "save" := "保存",
    "copyMarkdown" := "复制 Markdown",
    "copyHtml" := "复制 HTML",
    "resetConfig" := "重置配置",
    "resetConfirm" := "确定要重置 markdown-editor 的配置么?"]

  const Langs: map<string, Table> := map["en_US" := EnUS, "ja_JP" := JaJP, "ko_KR" := KoKR, "zh_CN" := ZhCN]

  /**
   * `getCurrentLanguage`: the browser's tag with its first `-` turned into `_`, when that
   * names a table, and `en_US` otherwise.
   */
  function CurrentLanguage(navigatorLanguage: string): (l: string)
    ensures l in Langs
    ensures ReplaceFirst(navigatorLanguage, "-", "_") in Langs ==> l == ReplaceFirst(navigatorLanguage, "-", "_")
    ensures ReplaceFirst(navigatorLanguage, "-", "_") !in Langs ==> l == "en_US"
  {
    var l := ReplaceFirst(navigatorLanguage, "-", "_");
    if l in Langs then l else "en_US"
  }

  /** `table[key]`, with `undefined` read as the falsy empty string. */
  function Lookup(table: Table, key: string): (r: string)
    ensures r != "" ==> key in table && r == table[key]
  {
    if key in table then table[key] else ""
  }

  /** `t(key)` under language `lang`: the language's string, else the English one, else the key. */
  function T(lang: string, key: string): (r: string)
    ensures lang in Langs && Lookup(Langs[lang], key) != "" ==> r == Langs[lang][key]
    ensures (lang !in Langs || Lookup(Langs[lang], key) == "") && Lookup(EnUS, key) != "" ==> r == EnUS[key]
    ensures (lang !in Langs || Lookup(Langs[lang], key) == "") && Lookup(EnUS, key) == "" ==> r == key
  {
    OrElse(OrElse(if lang in Langs then Lookup(Langs[lang], key) else "", Lookup(EnUS, key)), key)
  }

  /** The translation of a key at a language tag, as the webview computes it once at start-up. */
  function Translate(navigatorLanguage: string, key: string): (r: string)
    ensures r == "" ==> key == ""
  {
    T(CurrentLanguage(navigatorLanguage), key)
  }

  /** In a tag `a-b` with no `-` in `a`, exactly that first `-` becomes `_`. */
  lemma FirstDashOnly(a: string, b: string)
    requires '-' !in a
    ensures ReplaceFirst(a + "-" + b, "-", "_") == a + "_" + b
  {
    var s := a + "-" + b;
    assert s[|a|..|a| + 1] == "-";
    forall j: nat | j < |a| ensures !OccursAt(s, "-", j) {
      assert s[j..j + 1] == [a[j]];
      assert a[j] in a;
    }
    assert FirstOccurrence(s, "-", |a|);
    ReplaceFirstAt(s, "-", "_", |a|);
    assert s[..|a|] == a && s[|a| + 1..] == b;
  }

  /**
   * A tag `a-b` selects the table `a_b` when there is one and English otherwise; a tag without
   * `-` selects its own table or English.
   */
  lemma TagSelection(a: string, b: string)
    requires '-' !in a
    ensures CurrentLanguage(a + "-" + b) == (if a + "_" + b in Langs then a + "_" + b else "en_US")
    ensures '-' !in b ==> CurrentLanguage(a) == (if a in Langs then a else "en_US")
  {
    FirstDashOnly(a, b);
    forall k: nat ensures !OccursAt(a, "-", k) {
      if k < |a| {
        assert a[k..k + 1] == [a[k]];
        assert a[k] in a;
      }
    }
    ReplaceFirstAbsent(a, "-", "_");
  }

  /** `zh-CN` selects the Chinese table. */
  lemma ChineseTag()
    ensures CurrentLanguage("zh-CN") == "zh_CN"
  {
    TagSelection("zh", "CN");
    assert "zh" + "-" + "CN" == "zh-CN" && "zh" + "_" + "CN" == "zh_CN";
  }

  /** A key no table defines translates to itself under every tag. */
  lemma UnknownKeyIsItself(navigatorLanguage: string, key: string)
    requires forall l :: l in Langs ==> key !in Langs[l]
    ensures Translate(navigatorLanguage, key) == key
  {
    assert key !in EnUS by {
      assert "en_US" in Langs;
    }
  }

  /**
   * Every key with an English string translates to a non-empty string under every tag: the
   * chosen language's own string when it has one, the English string otherwise.
   */
  lemma EnglishFallback(navigatorLanguage: string, key: string)
    requires key in EnUS
    ensures Translate(navigatorLanguage, key) != ""
    ensures Translate(navigatorLanguage, key) in Langs[CurrentLanguage(navigatorLanguage)].Values + EnUS.Values
    ensures CurrentLanguage(navigatorLanguage) == "ja_JP" && key != "save" ==> Translate(navigatorLanguage, key) == EnUS[key]
  {
    var l := CurrentLanguage(navigatorLanguage);
    if Lookup(Langs[l], key) != "" {
      assert Langs[l][key] in Langs[l].Values;
    } else {
      assert EnUS[key] != "" by {
        EnglishNonEmpty(key);
      }
      assert EnUS[key] in EnUS.Values;
    }
    if l == "ja_JP" && key != "save" {
      assert key !in JaJP;
    }
  }

  /** Every English string is non-empty. */
  lemma EnglishNonEmpty(key: string)
    requires key in EnUS
    ensures EnUS[key] != ""
  {
    assert forall k :: k in EnUS ==> EnUS[k] != "";
  }

  /** `updateHotkeyTip`: the tip is returned as it is. */
  function UpdateHotkeyTip(tip: string): (r: string)
    ensures r == tip
  {
    tip
  }
}
