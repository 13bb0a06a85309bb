/**
 * The filter panel of the dashboard map (frontend/src/components/DashboardMapFilters.tsx):
 * the text normalisation the selects compare with, the select options built
 * from the project columns, the range, absorption, months-of-offer and subsidy
 * predicates, the filtered project list, the filter state that the selects
 * update, and the figures and charts computed over the projects in scope.
 * The request for the AI analysis and its timers are not part of this model.
 */
module DashboardMapFilters {
  import opened Wrappers
  import opened Text
  import opened Numeric
  import opened Collections
  import Analytics

  // ---------------------------------------------------------------------------
  // normalize
  // ---------------------------------------------------------------------------

  /** `value || ''`. */
  function OrEmpty(v: Option<string>): string {
    if v.Some? then v.value else ""
  }

  /** The canonical decompositions (NFD) of the accented letters of Latin-1: base letter, then combining mark. */
  const Decompositions: map<char, string> := map[
    '\U{C0}' := "A\U{300}",
    '\U{C1}' := "A\U{301}",
    '\U{C2}' := "A\U{302}",
    '\U{C3}' := "A\U{303}",
    '\U{C4}' := "A\U{308}",
    '\U{C5}' := "A\U{30A}",
    '\U{C7}' := "C\U{327}",
    '\U{C8}' := "E\U{300}",
    '\U{C9}' := "E\U{301}",
    '\U{CA}' := "E\U{302}",
    '\U{CB}' := "E\U{308}",
    '\U{CC}' := "I\U{300}",
    '\U{CD}' := "I\U{301}",
    '\U{CE}' := "I\U{302}",
    '\U{CF}' := "I\U{308}",
    '\U{D1}' := "N\U{303}",
    '\U{D2}' := "O\U{300}",
    '\U{D3}' := "O\U{301}",
    '\U{D4}' := "O\U{302}",
    '\U{D5}' := "O\U{303}",
    '\U{D6}' := "O\U{308}",
    '\U{D9}' := "U\U{300}",
    '\U{DA}' := "U\U{301}",
    '\U{DB}' := "U\U{302}",
    '\U{DC}' := "U\U{308}",
    '\U{DD}' := "Y\U{301}",
    '\U{E0}' := "a\U{300}",
    '\U{E1}' := "a\U{301}",
    '\U{E2}' := "a\U{302}",
    '\U{E3}' := "a\U{303}",
    '\U{E4}' := "a\U{308}",
    '\U{E5}' := "a\U{30A}",
    '\U{E7}' := "c\U{327}",
    '\U{E8}' := "e\U{300}",
    '\U{E9}' := "e\U{301}",
    '\U{EA}' := "e\U{302}",
    '\U{EB}' := "e\U{308}",
    '\U{EC}' := "i\U{300}",
    '\U{ED}' := "i\U{301}",
    '\U{EE}' := "i\U{302}",
    '\U{EF}' := "i\U{308}",
    '\U{F1}' := "n\U{303}",
    '\U{F2}' := "o\U{300}",
    '\U{F3}' := "o\U{301}",
    '\U{F4}' := "o\U{302}",
    '\U{F5}' := "o\U{303}",
    '\U{F6}' := "o\U{308}",
    '\U{F9}' := "u\U{300}",
    '\U{FA}' := "u\U{301}",
    '\U{FB}' := "u\U{302}",
    '\U{FC}' := "u\U{308}",
    '\U{FD}' := "y\U{301}",
    '\U{FF}' := "y\U{308}"
  ]

  /** The canonical decomposition of one character; characters below U+00C0 have none. */
  function Decompose(c: char): (r: string)
    ensures c < '\U{C0}' ==> r == [c]
  {
    if c < '\U{C0}' then [c] else if c in Decompositions then Decompositions[c] else [c]
  }

  /** `s.normalize('NFD')` on the characters this model decomposes. */
  function Nfd(s: string): string {
    if s == [] then [] else Decompose(s[0]) + Nfd(s[1..])
  }

  /** The regular-expression class `\w`. */
  predicate IsWordChar(c: char) {
    IsUpperAscii(c) || IsLowerAscii(c) || IsDigit(c) || c == '_'
  }

  /** The characters that `.replace(/[^\w\s-]/g, '')` keeps. */
  predicate Kept(c: char) {
    IsWordChar(c) || IsSpace(c) || c == '-'
  }

  /** The characters that `.replace(/[\u0300-\u036f]/g, '')` keeps. */
  predicate NotCombining(c: char) {
    !('\U{300}' <= c <= '\U{36F}')
  }

  /** Everything `normalize` does after the decomposition: drop the characters, trim, lower-case. */
  function Clean(s: string): string {
    Lower(Strip(Filter(Filter(s, Kept), NotCombining)))
  }

  /** `normalize`: decompose, drop every character other than a word character, a space or `-`, drop combining marks, trim, lower-case. */
  function Normalize(v: Option<string>): string {
    Clean(Nfd(OrEmpty(v)))
  }

  /** A normalised text: lower-case letters, digits, `_`, spaces and `-`, with no space at either end. */
  predicate IsNormal(s: string) {
    (forall i :: 0 <= i < |s| ==> IsLowerAscii(s[i]) || IsDigit(s[i]) || s[i] == '_' || IsSpace(s[i]) || s[i] == '-') &&
    (s == [] || (!IsSpace(s[0]) && !IsSpace(s[|s| - 1])))
  }

  /** The removal of combining marks finds none left: the first replacement already took them out. */
  lemma CombiningPassRedundant(s: string)
    ensures Filter(Filter(s, Kept), NotCombining) == Filter(s, Kept)
  {
    FilterAll(Filter(s, Kept), NotCombining);
  }

  lemma StripKeepsKept(f: string)
    requires forall i :: 0 <= i < |f| ==> Kept(f[i])
    ensures forall i :: 0 <= i < |Strip(f)| ==> Kept(Strip(f)[i])
  {
    StripChars(f);
    assert forall i :: 0 <= i < |Strip(f)| ==> Strip(f)[i] in Strip(f);
  }

  lemma LowerOfKept(t: string)
    requires forall i :: 0 <= i < |t| ==> Kept(t[i])
    requires t == [] || (!IsSpace(t[0]) && !IsSpace(t[|t| - 1]))
    ensures IsNormal(Lower(t))
  {
  }

  /** What `Clean` returns is a normalised text. */
  lemma CleanIsNormal(s: string)
    ensures IsNormal(Clean(s))
  {
    var f := Filter(s, Kept);
    CombiningPassRedundant(s);
    StripKeepsKept(f);
    LowerOfKept(Strip(f));
  }

  /** What `normalize` returns is a normalised text. */
  lemma NormalizeIsNormal(v: Option<string>)
    ensures IsNormal(Normalize(v))
  {
    CleanIsNormal(Nfd(OrEmpty(v)));
  }

  /** A text without characters to decompose is its own decomposition. */
  lemma {:induction false} NfdAscii(s: string)
    requires forall i :: 0 <= i < |s| ==> s[i] < '\U{C0}'
    ensures Nfd(s) == s
  {
    if s != [] {
      NfdAscii(s[1..]);
      assert s == [s[0]] + s[1..];
    }
  }

  lemma LowerOfLower(n: string)
    requires forall i :: 0 <= i < |n| ==> !IsUpperAscii(n[i])
    ensures Lower(n) == n
  {
  }

  /** A normalised text is left as it is. */
  lemma NormalIsFixed(n: string)
    requires IsNormal(n)
    ensures Clean(Nfd(n)) == n
  {
    NormalDecomposed(n);
    NormalFiltered(n);
    StripNoSpace(n);
    NormalLower(n);
  }

  lemma NormalDecomposed(n: string)
    requires IsNormal(n)
    ensures Nfd(n) == n
  {
    NormalChars(n);
    NfdAscii(n);
  }

  lemma NormalFiltered(n: string)
    requires IsNormal(n)
    ensures Filter(Filter(n, Kept), NotCombining) == n
  {
    NormalChars(n);
    NormalFilters(n);
  }

  lemma NormalLower(n: string)
    requires IsNormal(n)
    ensures Lower(n) == n
  {
    NormalChars(n);
    LowerOfLower(n);
  }

  lemma NormalChars(n: string)
    requires IsNormal(n)
    ensures forall i :: 0 <= i < |n| ==> n[i] < '\U{C0}' && Kept(n[i]) && NotCombining(n[i]) && !IsUpperAscii(n[i])
  {
  }

  lemma NormalFilters(n: string)
    requires forall i :: 0 <= i < |n| ==> Kept(n[i]) && NotCombining(n[i])
    ensures Filter(Filter(n, Kept), NotCombining) == n
  {
    FilterAll(n, Kept);
    FilterAll(n, NotCombining);
  }

  /** Normalising twice is normalising once, so a select value compares equal to the option it came from. */
  lemma NormalizeIdempotent(v: Option<string>)
    ensures Normalize(Some(Normalize(v))) == Normalize(v)
  {
    NormalizeIsNormal(v);
    NormalIsFixed(Normalize(v));
  }

  /** The decomposition of `\U{D1}u\U{F1}oa` is letters and combining tildes. */
  lemma NfdExample()
    ensures Nfd("\U{D1}u\U{F1}oa") == "N\U{303}un\U{303}oa"
  {
    var s := "\U{D1}u\U{F1}oa";
    assert Nfd(s[4..]) == "a";
    assert Nfd(s[3..]) == "oa";
    assert Nfd(s[2..]) == "n\U{303}oa";
    assert Nfd(s[1..]) == "un\U{303}oa";
  }

  // ---------------------------------------------------------------------------
  // toTitleCase
  // ---------------------------------------------------------------------------

  /**
   * `.replace(/(^|\s|-)\S/g, c => c.toUpperCase())` from position `i`, where
   * the previous match ended: a non-space at the start, or after a space or
   * `-` that no earlier match took, is upper-cased.
   */
  function CapitalizeFrom(s: string, i: nat): (r: string)
    requires i <= |s|
    ensures |r| == |s| - i
    decreases |s| - i
  {
    if i == |s| then []
    else if i == 0 && !IsSpace(s[0]) then [UpperChar(s[0])] + CapitalizeFrom(s, 1)
    else if i + 1 < |s| && (IsSpace(s[i]) || s[i] == '-') && !IsSpace(s[i + 1]) then
      [s[i], UpperChar(s[i + 1])] + CapitalizeFrom(s, i + 2)
    else [s[i]] + CapitalizeFrom(s, i + 1)
  }

  /** `toTitleCase`: trim, lower-case, then capitalise each word. */
  function ToTitleCase(value: string): string {
    CapitalizeFrom(Lower(Strip(value)), 0)
  }

  lemma {:induction false} CapitalizeFromLower(s: string, i: nat)
    requires i <= |s|
    ensures Lower(CapitalizeFrom(s, i)) == Lower(s[i..])
    decreases |s| - i
  {
    if i < |s| {
      if i == 0 && !IsSpace(s[0]) {
        CapitalizeFromLower(s, 1);
        CapitalizedFirst(s);
      } else if i + 1 < |s| && (IsSpace(s[i]) || s[i] == '-') && !IsSpace(s[i + 1]) {
        CapitalizeFromLower(s, i + 2);
        CapitalizedAfter(s, i);
      } else {
        CapitalizeFromLower(s, i + 1);
        CapitalizedNone(s, i);
      }
    }
  }

  lemma CapitalizedFirst(s: string)
    requires s != [] && !IsSpace(s[0])
    requires Lower(CapitalizeFrom(s, 1)) == Lower(s[1..])
    ensures Lower(CapitalizeFrom(s, 0)) == Lower(s[0..])
  {
    assert CapitalizeFrom(s, 0) == [UpperChar(s[0])] + CapitalizeFrom(s, 1);
    LowerOfUpper(s[0]);
    LowerConsSameCase(s, 0, UpperChar(s[0]), CapitalizeFrom(s, 1));
  }

  lemma CapitalizedAfter(s: string, i: nat)
    requires i + 1 < |s| && (IsSpace(s[i]) || s[i] == '-') && !IsSpace(s[i + 1])
    requires !(i == 0 && !IsSpace(s[0]))
    requires Lower(CapitalizeFrom(s, i + 2)) == Lower(s[i + 2..])
    ensures Lower(CapitalizeFrom(s, i)) == Lower(s[i..])
  {
    var tail := CapitalizeFrom(s, i + 2);
    CapitalizeAfterUnfold(s, i);
    LowerOfUpper(s[i + 1]);
    LowerConsSameCase(s, i + 1, UpperChar(s[i + 1]), tail);
    LowerConsSameCase(s, i, s[i], [UpperChar(s[i + 1])] + tail);
  }

  lemma CapitalizeAfterUnfold(s: string, i: nat)
    requires i + 1 < |s| && (IsSpace(s[i]) || s[i] == '-') && !IsSpace(s[i + 1])
    requires !(i == 0 && !IsSpace(s[0]))
    ensures CapitalizeFrom(s, i) == [s[i]] + ([UpperChar(s[i + 1])] + CapitalizeFrom(s, i + 2))
  {
    assert CapitalizeFrom(s, i) == [s[i], UpperChar(s[i + 1])] + CapitalizeFrom(s, i + 2);
  }

  lemma CapitalizedNone(s: string, i: nat)
    requires i < |s|
    requires !(i == 0 && !IsSpace(s[0]))
    requires !(i + 1 < |s| && (IsSpace(s[i]) || s[i] == '-') && !IsSpace(s[i + 1]))
    requires Lower(CapitalizeFrom(s, i + 1)) == Lower(s[i + 1..])
    ensures Lower(CapitalizeFrom(s, i)) == Lower(s[i..])
  {
    assert CapitalizeFrom(s, i) == [s[i]] + CapitalizeFrom(s, i + 1);
    LowerConsSameCase(s, i, s[i], CapitalizeFrom(s, i + 1));
  }

  /** A character that agrees with `s[i]` up to case, followed by a text that agrees with the rest of `s` up to case. */
  lemma LowerConsSameCase(s: string, i: nat, c: char, tail: string)
    requires i < |s|
    requires LowerChar(c) == LowerChar(s[i])
    requires Lower(tail) == Lower(s[i + 1..])
    ensures Lower([c] + tail) == Lower(s[i..])
  {
    assert s[i..] == [s[i]] + s[i + 1..];
    LowerSameCase([c], [s[i]], tail, s[i + 1..]);
  }

  /** Two texts that agree up to case, followed by two that agree up to case, agree up to case. */
  lemma LowerSameCase(p: string, q: string, rest: string, t: string)
    requires |p| == |q|
    requires forall j :: 0 <= j < |p| ==> LowerChar(p[j]) == LowerChar(q[j])
    requires Lower(rest) == Lower(t)
    ensures Lower(p + rest) == Lower(q + t)
  {
    assert |rest| == |t|;
    forall j | 0 <= j < |p + rest|
      ensures Lower(p + rest)[j] == Lower(q + t)[j]
    {
      if j >= |p| {
        assert Lower(rest)[j - |p|] == Lower(t)[j - |p|];
      }
    }
  }

  /**
   * Title-casing only changes the case of letters: lower-cased again it is
   * the trimmed, lower-cased value; and the first letter is a capital.
   */
  lemma TitleCaseOnlyCase(value: string)
    ensures Lower(ToTitleCase(value)) == Lower(Strip(value))
    ensures Strip(value) != "" ==> ToTitleCase(value)[0] == UpperChar(LowerChar(Strip(value)[0]))
  {
    var t := Lower(Strip(value));
    CapitalizeFromLower(t, 0);
    assert t[0..] == t;
    assert Lower(t) == t;
  }

  // ---------------------------------------------------------------------------
  // buildUniqueOptions
  // ---------------------------------------------------------------------------

  /** `{ value, label }`; `label` is a reserved word here. */
  datatype SelectOption = SelectOption(value: string, caption: string)

  /** A raw value that yields an option: `if (!raw) return` and `if (!key) return` let it through. */
  predicate Listed(raw: Option<string>) {
    raw.Some? && raw.value != "" && Normalize(raw) != ""
  }

  function KeyOf(raw: Option<string>): string {
    Normalize(raw)
  }

  /** `labelFormatter ? labelFormatter(raw) : raw.trim()`. */
  function LabelOf(raw: Option<string>, format: Option<string -> string>): string {
    if format.Some? then format.value(OrEmpty(raw)) else Strip(OrEmpty(raw))
  }

  /** The label of the first listed value with key `k`. */
  function FirstLabel(listed: seq<Option<string>>, key: Option<string> -> string, k: string,
                      format: Option<string -> string>): string {
    var m := Members(listed, key, k);
    if m == [] then "" else LabelOf(m[0], format)
  }

  /** One entry per key, in order of first occurrence, labelled from the first value with that key. */
  function EntriesBy(listed: seq<Option<string>>, key: Option<string> -> string,
                     format: Option<string -> string>): seq<SelectOption> {
    var ks := Keys(listed, key);
    seq(|ks|, j requires 0 <= j < |ks| => SelectOption(ks[j], FirstLabel(listed, key, ks[j], format)))
  }

  /** The entries of the `Map`, in insertion order. */
  function OptionEntries(values: seq<Option<string>>, format: Option<string -> string>): seq<SelectOption> {
    EntriesBy(Filter(values, Listed), KeyOf, format)
  }

  /** `a.label.localeCompare(b.label, 'es-CL') <= 0`. */
  predicate ByLabel(a: SelectOption, b: SelectOption) {
    LexLe(a.caption, b.caption)
  }

  /** What `buildUniqueOptions` returns. */
  function UniqueOptions(values: seq<Option<string>>, format: Option<string -> string>): seq<SelectOption> {
    Sort(OptionEntries(values, format), ByLabel)
  }

  /** The `Map` after some of the values: the keys in insertion order and the label stored for each. */
  ghost predicate OptionsSoFar(listed: seq<Option<string>>, key: Option<string> -> string, format: Option<string -> string>,
                               keys: seq<string>, labels: map<string, string>) {
    keys == Keys(listed, key) &&
    (forall k :: k in labels <==> k in keys) &&
    forall k :: k in labels ==> labels[k] == FirstLabel(listed, key, k, format)
  }

  /** `buildUniqueOptions`: the `forEach` filling the `Map`, then its entries sorted by label. */
  method BuildUniqueOptions(values: seq<Option<string>>, format: Option<string -> string>)
    returns (options: seq<SelectOption>)
    ensures options == UniqueOptions(values, format)
  {
    var keys, labels := CollectLabels(values, format);
    EntriesOfMap(Filter(values, Listed), KeyOf, format, keys, labels);
    options := Sort(MapEntries(keys, labels), ByLabel);
  }

  /** `Array.from(map.entries())`: the keys in insertion order, each with its stored label. */
  function MapEntries(keys: seq<string>, labels: map<string, string>): (entries: seq<SelectOption>)
    requires forall k :: k in keys ==> k in labels
    ensures |entries| == |keys|
    ensures forall j :: 0 <= j < |keys| ==> entries[j] == SelectOption(keys[j], labels[keys[j]])
  {
    seq(|keys|, j requires 0 <= j < |keys| => SelectOption(keys[j], labels[keys[j]]))
  }

  /** The entries of the filled `Map` are one per key, labelled from the first value with that key. */
  lemma EntriesOfMap(listed: seq<Option<string>>, key: Option<string> -> string, format: Option<string -> string>,
                     keys: seq<string>, labels: map<string, string>)
    requires OptionsSoFar(listed, key, format, keys, labels)
    ensures forall k :: k in keys ==> k in labels
    ensures MapEntries(keys, labels) == EntriesBy(listed, key, format)
  {
  }

  /** The `forEach`: each listed value whose key is new stores its label under that key. */
  method CollectLabels(values: seq<Option<string>>, format: Option<string -> string>)
    returns (keys: seq<string>, labels: map<string, string>)
    ensures OptionsSoFar(Filter(values, Listed), KeyOf, format, keys, labels)
  {
    keys := [];
    labels := map[];
    for i := 0 to |values|
      invariant OptionsSoFar(Filter(values[..i], Listed), KeyOf, format, keys, labels)
    {
      var raw := values[i];
      ghost var before := Filter(values[..i], Listed);
      FilterPrefixStep(values, i, Listed);
      if raw.Some? && raw.value != "" {
        var key := Normalize(raw);
        if key != "" {
          ghost var keys0, labels0 := keys, labels;
          if key !in labels {
            labels := labels[key := LabelOf(raw, format)];
            keys := keys + [key];
          }
          OptionsStep(before, KeyOf, raw, format, keys0, labels0, keys, labels);
        } else {
          assert !Listed(raw);
          assert Filter(values[..i + 1], Listed) == before + [];
          assert before + [] == before;
        }
      } else {
        assert !Listed(raw);
        assert Filter(values[..i + 1], Listed) == before + [];
        assert before + [] == before;
      }
    }
    assert values[..|values|] == values;
  }

  /** A value adds its key with its label when the key is new, and changes nothing otherwise. */
  lemma OptionsStep(listed: seq<Option<string>>, key: Option<string> -> string, raw: Option<string>,
                    format: Option<string -> string>,
                    keys: seq<string>, labels: map<string, string>, keys': seq<string>, labels': map<string, string>)
    requires OptionsSoFar(listed, key, format, keys, labels)
    requires keys' == if key(raw) in labels then keys else keys + [key(raw)]
    requires labels' == if key(raw) in labels then labels else labels[key(raw) := LabelOf(raw, format)]
    ensures OptionsSoFar(listed + [raw], key, format, keys', labels')
  {
    OptionKeysStep(listed, key, raw, keys, labels, keys');
    OptionDomainStep(keys, labels, keys', labels', key(raw), LabelOf(raw, format));
    OptionLabelsStep(listed, key, raw, format, keys, labels, labels');
  }

  lemma OptionKeysStep(listed: seq<Option<string>>, key: Option<string> -> string, raw: Option<string>,
                 keys: seq<string>, labels: map<string, string>, keys': seq<string>)
    requires keys == Keys(listed, key)
    requires forall k :: k in labels <==> k in keys
    requires keys' == if key(raw) in labels then keys else keys + [key(raw)]
    ensures keys' == Keys(listed + [raw], key)
  {
    KeysSnoc(listed, raw, key);
  }

  lemma OptionDomainStep(keys: seq<string>, labels: map<string, string>, keys': seq<string>, labels': map<string, string>,
                   k0: string, v: string)
    requires forall k :: k in labels <==> k in keys
    requires keys' == if k0 in labels then keys else keys + [k0]
    requires labels' == if k0 in labels then labels else labels[k0 := v]
    ensures forall k :: k in labels' <==> k in keys'
  {
  }

  lemma OptionLabelsStep(listed: seq<Option<string>>, key: Option<string> -> string, raw: Option<string>,
                   format: Option<string -> string>, keys: seq<string>, labels: map<string, string>, labels': map<string, string>)
    requires keys == Keys(listed, key)
    requires forall k :: k in labels <==> k in keys
    requires forall k :: k in labels ==> labels[k] == FirstLabel(listed, key, k, format)
    requires labels' == if key(raw) in labels then labels else labels[key(raw) := LabelOf(raw, format)]
    ensures forall k :: k in labels' ==> labels'[k] == FirstLabel(listed + [raw], key, k, format)
  {
    forall k | k in labels'
      ensures labels'[k] == FirstLabel(listed + [raw], key, k, format)
    {
      FirstLabelSnoc(listed, key, raw, format, k);
    }
  }

  /** The first label for a key changes only when the appended value is the key's first. */
  lemma FirstLabelSnoc(listed: seq<Option<string>>, key: Option<string> -> string, raw: Option<string>,
                       format: Option<string -> string>, k: string)
    ensures FirstLabel(listed + [raw], key, k, format) ==
            if key(raw) == k && k !in Keys(listed, key) then LabelOf(raw, format) else FirstLabel(listed, key, k, format)
  {
    var m := Members(listed, key, k);
    MembersSnoc(listed, raw, key, k);
    if key(raw) == k {
      if k in Keys(listed, key) {
        MembersNonEmpty(listed, key, k);
        assert (m + [raw])[0] == m[0];
      } else {
        MembersAbsent(listed, key, k);
        assert m + [raw] == [raw];
      }
    } else {
      assert m + [] == m;
    }
  }

  lemma ByLabelPreorder()
    ensures TotalPreorder(ByLabel)
  {
    forall a, b
      ensures ByLabel(a, b) || ByLabel(b, a)
    {
      LexLeTotal(a.caption, b.caption);
    }
    forall a, b, c | ByLabel(a, b) && ByLabel(b, c)
      ensures ByLabel(a, c)
    {
      LexLeTransitive(a.caption, b.caption, c.caption);
    }
  }

  /** The entries have one value per key, in order, so no value twice. */
  lemma EntriesByDistinct(listed: seq<Option<string>>, key: Option<string> -> string, format: Option<string -> string>)
    ensures var e := EntriesBy(listed, key, format);
      |e| == |Keys(listed, key)| &&
      (forall j :: 0 <= j < |e| ==> e[j].value == Keys(listed, key)[j]) &&
      NoDuplicates(e)
  {
  }

  /** The options built from the values that pass `ok`, grouped by `key`. */
  function OptionsBy(values: seq<Option<string>>, ok: Option<string> -> bool, key: Option<string> -> string,
                     format: Option<string -> string>): seq<SelectOption> {
    Sort(EntriesBy(Filter(values, ok), key, format), ByLabel)
  }

  lemma OptionsBySorted(values: seq<Option<string>>, ok: Option<string> -> bool, key: Option<string> -> string,
                        format: Option<string -> string>)
    ensures var o := OptionsBy(values, ok, key, format);
      Sorted(o, ByLabel) &&
      multiset(o) == multiset(EntriesBy(Filter(values, ok), key, format)) &&
      forall j, l :: 0 <= j < l < |o| ==> o[j].value != o[l].value
  {
    var e := EntriesBy(Filter(values, ok), key, format);
    ByLabelPreorder();
    SortSorted(e, ByLabel);
    EntriesByDistinct(Filter(values, ok), key, format);
    ValuesStayDistinct(e, Sort(e, ByLabel));
  }

  /** A reordering of options with distinct values has distinct values. */
  lemma ValuesStayDistinct(e: seq<SelectOption>, o: seq<SelectOption>)
    requires multiset(e) == multiset(o)
    requires forall j, l :: 0 <= j < l < |e| ==> e[j].value != e[l].value
    ensures forall j, l :: 0 <= j < l < |o| ==> o[j].value != o[l].value
  {
    PermutationNoDuplicates(e, o);
    forall j, l | 0 <= j < l < |o|
      ensures o[j].value != o[l].value
    {
      var a := PermutedIndex(e, o, j);
      var b := PermutedIndex(e, o, l);
    }
  }

  lemma OptionsByOffered(values: seq<Option<string>>, ok: Option<string> -> bool, key: Option<string> -> string,
                         format: Option<string -> string>, i: nat) returns (j: nat)
    requires i < |values| && ok(values[i])
    ensures j < |OptionsBy(values, ok, key, format)| && OptionsBy(values, ok, key, format)[j].value == key(values[i])
  {
    var listed := Filter(values, ok);
    var e := EntriesBy(listed, key, format);
    FilterMembers(values, ok);
    assert values[i] in multiset(listed);
    var l :| 0 <= l < |listed| && listed[l] == values[i];
    var ks := Keys(listed, key);
    assert key(listed[l]) in ks;
    var a :| 0 <= a < |ks| && ks[a] == key(values[i]);
    EntriesByDistinct(listed, key, format);
    j := PermutedIndex(Sort(e, ByLabel), e, a);
  }

  lemma OptionsBySource(values: seq<Option<string>>, ok: Option<string> -> bool, key: Option<string> -> string,
                        format: Option<string -> string>, j: nat) returns (f: nat)
    requires j < |OptionsBy(values, ok, key, format)|
    ensures var o := OptionsBy(values, ok, key, format);
      f < |values| && ok(values[f]) && key(values[f]) == o[j].value &&
      o[j].caption == LabelOf(values[f], format) &&
      forall i :: 0 <= i < f ==> !(ok(values[i]) && key(values[i]) == o[j].value)
  {
    var listed := Filter(values, ok);
    var e := EntriesBy(listed, key, format);
    var a := PermutedIndex(e, Sort(e, ByLabel), j);
    EntriesByDistinct(listed, key, format);
    f := FilteredMembersFirst(values, ok, key, Keys(listed, key)[a]);
  }

  /**
   * The options are sorted by label, are the entries of the `Map` in some
   * order, and offer no value twice.
   */
  lemma UniqueOptionsSorted(values: seq<Option<string>>, format: Option<string -> string>)
    ensures Sorted(UniqueOptions(values, format), ByLabel)
    ensures multiset(UniqueOptions(values, format)) == multiset(OptionEntries(values, format))
    ensures forall j, l :: 0 <= j < l < |UniqueOptions(values, format)| ==>
              UniqueOptions(values, format)[j].value != UniqueOptions(values, format)[l].value
  {
    OptionsBySorted(values, Listed, KeyOf, format);
  }

  /** Every raw value that yields a key is offered under that key. */
  lemma OptionOffered(values: seq<Option<string>>, format: Option<string -> string>, i: nat) returns (j: nat)
    requires i < |values| && Listed(values[i])
    ensures j < |UniqueOptions(values, format)| && UniqueOptions(values, format)[j].value == KeyOf(values[i])
  {
    j := OptionsByOffered(values, Listed, KeyOf, format, i);
  }

  /**
   * Every option is the key of some raw value, and its label is that of the
   * first raw value with that key.
   */
  lemma OptionSource(values: seq<Option<string>>, format: Option<string -> string>, j: nat) returns (f: nat)
    requires j < |UniqueOptions(values, format)|
    ensures f < |values| && Listed(values[f]) && KeyOf(values[f]) == UniqueOptions(values, format)[j].value
    ensures UniqueOptions(values, format)[j].caption == LabelOf(values[f], format)
    ensures forall i :: 0 <= i < f ==> !(Listed(values[i]) && KeyOf(values[i]) == UniqueOptions(values, format)[j].value)
  {
    f := OptionsBySource(values, Listed, KeyOf, format, j);
  }

  // ---------------------------------------------------------------------------
  // Projects and typologies
  // ---------------------------------------------------------------------------

  /** A row of `project_typologies`. */
  datatype Typology = Typology(bedrooms: Option<int>, bathrooms: Option<int>, typologyCode: Option<string>)

  /** The columns of a project that the panel reads. */
  datatype DashboardProject = DashboardProject(
    id: string,
    commune: Option<string>,
    region: Option<string>,
    latitude: Option<real>,
    longitude: Option<real>,
    avgPriceUf: Option<real>,
    totalUnits: Option<real>,
    soldUnits: Option<real>,
    availableUnits: Option<real>,
    salesSpeedMonthly: Option<real>,
    projectStatus: Option<string>,
    propertyType: Option<string>,
    year: Option<int>,
    period: Option<string>,
    category: Option<string>,
    subsidyType: Option<string>,
    constructionStatus: Option<string>,
    typologies: Option<seq<Typology>>)

  /** `` `${bedrooms}D-${bathrooms}B` ``. */
  function CountsLabel(bedrooms: int, bathrooms: int): string {
    IntToString(bedrooms) + "D-" + IntToString(bathrooms) + "B"
  }

  /** `formatTypology`: the code upper-cased without whitespace, else the two counts, else `null`. */
  function FormatTypology(t: Typology): Option<string> {
    if t.typologyCode.Some? && t.typologyCode.value != "" then Some(DeleteSpaces(Upper(t.typologyCode.value)))
    else if t.bedrooms.Some? && t.bathrooms.Some? then Some(CountsLabel(t.bedrooms.value, t.bathrooms.value))
    else None
  }

  /**
   * A code is shown in capitals and without whitespace, and showing a shown
   * code again gives it back, so the typology select can match on it.
   */
  lemma FormatCodeCanonical(t: Typology)
    requires t.typologyCode.Some? && t.typologyCode.value != ""
    ensures var shown := FormatTypology(t).value;
      (forall i :: 0 <= i < |shown| ==> !IsSpace(shown[i]) && !IsLowerAscii(shown[i])) &&
      (shown != "" ==> FormatTypology(Typology(None, None, Some(shown))) == Some(shown))
  {
    var u := Upper(t.typologyCode.value);
    var shown := DeleteSpaces(u);
    DeleteSpacesChars(u);
    forall i | 0 <= i < |shown|
      ensures !IsLowerAscii(shown[i])
    {
      var k :| 0 <= k < |u| && u[k] == shown[i];
    }
    assert Upper(shown) == shown;
    DeleteSpacesNoSpace(shown);
  }

  /** Two typologies shown by their counts are shown alike exactly when their counts agree. */
  lemma CountsLabelInjective(b1: int, ba1: int, b2: int, ba2: int)
    ensures CountsLabel(b1, ba1) == CountsLabel(b2, ba2) <==> b1 == b2 && ba1 == ba2
  {
    if CountsLabel(b1, ba1) == CountsLabel(b2, ba2) {
      CountsLabelParts(b1, ba1);
      CountsLabelParts(b2, ba2);
      SplitAtFirst(IntToString(b1), "-" + IntToString(ba1) + "B", IntToString(b2), "-" + IntToString(ba2) + "B", 'D');
      IntToStringInjective(b1, b2);
      Unwrap(IntToString(ba1), IntToString(ba2));
      IntToStringInjective(ba1, ba2);
    }
  }

  lemma CountsLabelParts(b: int, ba: int)
    ensures CountsLabel(b, ba) == IntToString(b) + ['D'] + ("-" + IntToString(ba) + "B")
    ensures 'D' !in IntToString(b)
  {
    IntToStringChars(b);
  }

  lemma Unwrap(x1: string, x2: string)
    requires "-" + x1 + "B" == "-" + x2 + "B"
    ensures x1 == x2
  {
    assert ("-" + x1 + "B")[1..|x1| + 1] == x1;
    assert ("-" + x2 + "B")[1..|x2| + 1] == x2;
  }

  /** A typology is shown exactly when it has a code or both counts. */
  lemma FormatTypologyShown(t: Typology)
    ensures FormatTypology(t).Some? <==> (t.typologyCode.Some? && t.typologyCode.value != "") || (t.bedrooms.Some? && t.bathrooms.Some?)
    ensures (t.typologyCode.None? || t.typologyCode.value == "") && t.bedrooms.Some? && t.bathrooms.Some? ==>
      FormatTypology(t) == Some(CountsLabel(t.bedrooms.value, t.bathrooms.value))
  {
  }

  /** `project_typologies || []`. */
  function TypologiesOf(p: DashboardProject): seq<Typology> {
    if p.typologies.Some? then p.typologies.value else []
  }

  /** `projectMatchesTypology`: some typology of the project is shown as the selected one. */
  predicate MatchesTypology(p: DashboardProject, selected: string) {
    exists i :: 0 <= i < |TypologiesOf(p)| && FormatTypology(TypologiesOf(p)[i]) == Some(selected)
  }

  /** A project without typologies matches no typology, and one with a typology matches the way it is shown. */
  lemma MatchesTypologyOf(p: DashboardProject, i: nat)
    ensures TypologiesOf(p) == [] ==> forall s :: !MatchesTypology(p, s)
    ensures i < |TypologiesOf(p)| && FormatTypology(TypologiesOf(p)[i]).Some? ==>
      MatchesTypology(p, FormatTypology(TypologiesOf(p)[i]).value)
  {
  }

  // ---------------------------------------------------------------------------
  // Ranges
  // ---------------------------------------------------------------------------

  /** A select range `[min, max)`. */
  datatype Range = Range(key: string, caption: string, min: real, max: real)

  /** `Number.MAX_SAFE_INTEGER`. */
  const MaxSafeInteger: real := 9007199254740991.0

  const PriceRanges: seq<Range> := [
    Range("1000-2000", "1.000 - 2.000 UF", 1000.0, 2000.0),
    Range("2000-3000", "2.000 - 3.000 UF", 2000.0, 3000.0),
    Range("3000-4000", "3.000 - 4.000 UF", 3000.0, 4000.0),
    Range("4000-5000", "4.000 - 5.000 UF", 4000.0, 5000.0),
    Range("5000-7000", "5.000 - 7.000 UF", 5000.0, 7000.0),
    Range("7000+", "7.000+ UF", 7000.0, MaxSafeInteger)
  ]

  const AbsorptionRanges: seq<Range> := [
    Range("0-20", "0% - 20%", 0.0, 20.0),
    Range("20-40", "20% - 40%", 20.0, 40.0),
    Range("40-60", "40% - 60%", 40.0, 60.0),
    Range("60-80", "60% - 80%", 60.0, 80.0),
    Range("80-100", "80% - 100%", 80.0, 101.0)
  ]

  const MaoRanges: seq<Range> := [
    Range("0-6", "0 - 6 meses", 0.0, 6.0),
    Range("6-12", "6 - 12 meses", 6.0, 12.0),
    Range("12-24", "12 - 24 meses", 12.0, 24.0),
    Range("24+", "24+ meses", 24.0, MaxSafeInteger)
  ]

  /** `ranges.find(r => r.key === selected)`. */
  function FindRange(ranges: seq<Range>, selected: string): (r: Option<Range>)
    ensures r.Some? ==> r.value in ranges && r.value.key == selected
    ensures r.None? <==> forall i :: 0 <= i < |ranges| ==> ranges[i].key != selected
  {
    if ranges == [] then None
    else if ranges[0].key == selected then Some(ranges[0])
    else
      assert forall i :: 1 <= i < |ranges| ==> ranges[i] == ranges[1..][i - 1];
      FindRange(ranges[1..], selected)
  }

  predicate Within(r: Range, value: real) {
    r.min <= value < r.max
  }

  /** `inRange`: an unknown key lets every value through, a known one only the values in its range. */
  predicate InRange(value: real, ranges: seq<Range>, selected: string) {
    var r := FindRange(ranges, selected);
    r.None? || Within(r.value, value)
  }

  /** `projectMatchesTicket`: the price, 0 when missing, in the selected price range. */
  predicate MatchesTicket(p: DashboardProject, ticketRange: string) {
    InRange(OrZero(p.avgPriceUf), PriceRanges, ticketRange)
  }

  /** `getAbsorptionPct`. */
  function AbsorptionPct(p: DashboardProject): real {
    var total := OrZero(p.totalUnits);
    var sold := OrZero(p.soldUnits);
    if total <= 0.0 then 0.0 else sold / total * 100.0
  }

  /** `getMao`: the months the stock lasts at the monthly sales speed, `MAX_SAFE_INTEGER` when nothing sells. */
  function Mao(p: DashboardProject): real {
    var speed := OrZero(p.salesSpeedMonthly);
    var stock := OrZero(p.availableUnits);
    if speed > 0.0 then stock / speed else MaxSafeInteger
  }

  /** Non-empty ranges with distinct keys, each starting where the previous one ends. */
  predicate Contiguous(rs: seq<Range>) {
    (forall i :: 0 <= i < |rs| ==> rs[i].min < rs[i].max) &&
    (forall i :: 0 <= i < |rs| - 1 ==> rs[i].max == rs[i + 1].min) &&
    forall i, j :: 0 <= i < j < |rs| ==> rs[i].key != rs[j].key
  }

  lemma RangeTablesContiguous()
    ensures Contiguous(PriceRanges) && Contiguous(AbsorptionRanges) && Contiguous(MaoRanges)
  {
    PriceRangesContiguous();
    AbsorptionRangesContiguous();
    MaoRangesContiguous();
  }

  lemma PriceRangesContiguous()
    ensures Contiguous(PriceRanges)
  {
    var rs := PriceRanges;
    assert rs[0].min == 1000.0 && rs[1].min == 2000.0 && rs[2].min == 3000.0 && rs[3].min == 4000.0 && rs[4].min == 5000.0 && rs[5].min == 7000.0;
    assert rs[0].max == 2000.0 && rs[1].max == 3000.0 && rs[2].max == 4000.0 && rs[3].max == 5000.0 && rs[4].max == 7000.0 && rs[5].max == MaxSafeInteger;
    IncreasingHeadsDistinct(rs);
  }

  lemma AbsorptionRangesContiguous()
    ensures Contiguous(AbsorptionRanges)
  {
    var rs := AbsorptionRanges;
    assert rs[0].min == 0.0 && rs[1].min == 20.0 && rs[2].min == 40.0 && rs[3].min == 60.0 && rs[4].min == 80.0;
    assert rs[0].max == 20.0 && rs[1].max == 40.0 && rs[2].max == 60.0 && rs[3].max == 80.0 && rs[4].max == 101.0;
    IncreasingHeadsDistinct(rs);
  }

  /** Keys whose first characters increase along the table are pairwise distinct. */
  lemma IncreasingHeadsDistinct(rs: seq<Range>)
    requires forall i :: 0 <= i < |rs| ==> rs[i].key != []
    requires forall i :: 0 <= i < |rs| - 1 ==> rs[i].key[0] < rs[i + 1].key[0]
    ensures forall i, j :: 0 <= i < j < |rs| ==> rs[i].key != rs[j].key
  {
    forall i, j | 0 <= i < j < |rs|
      ensures rs[i].key != rs[j].key
    {
      HeadsIncrease(rs, i, j);
    }
  }

  lemma {:induction false} HeadsIncrease(rs: seq<Range>, i: nat, j: nat)
    requires forall i :: 0 <= i < |rs| ==> rs[i].key != []
    requires forall i :: 0 <= i < |rs| - 1 ==> rs[i].key[0] < rs[i + 1].key[0]
    requires i < j < |rs|
    ensures rs[i].key[0] < rs[j].key[0]
    decreases j - i
  {
    if i + 1 < j {
      HeadsIncrease(rs, i + 1, j);
    }
  }

  lemma MaoRangesContiguous()
    ensures Contiguous(MaoRanges)
  {
    var rs := MaoRanges;
    assert rs[0].min == 0.0 && rs[1].min == 6.0 && rs[2].min == 12.0 && rs[3].min == 24.0;
    assert rs[0].max == 6.0 && rs[1].max == 12.0 && rs[2].max == 24.0 && rs[3].max == MaxSafeInteger;
  }

  /** A later range starts no earlier than an earlier one ends. */
  lemma {:induction false} ContiguousOrdered(rs: seq<Range>, i: nat, j: nat)
    requires Contiguous(rs) && i < j < |rs|
    ensures rs[i].max <= rs[j].min
    decreases j - i
  {
    if i + 1 < j {
      ContiguousOrdered(rs, i + 1, j);
    }
  }

  /** No value is in two ranges of a contiguous table. */
  lemma AtMostOneRange(rs: seq<Range>, v: real, i: nat, j: nat)
    requires Contiguous(rs) && i < |rs| && j < |rs|
    requires Within(rs[i], v) && Within(rs[j], v)
    ensures i == j
  {
    if i < j {
      ContiguousOrdered(rs, i, j);
    } else if j < i {
      ContiguousOrdered(rs, j, i);
    }
  }

  /** A value from the start of the first range to the end of the last is in exactly one range. */
  lemma {:induction false} CoveredOnce(rs: seq<Range>, v: real) returns (i: nat)
    requires Contiguous(rs) && rs != [] && rs[0].min <= v < rs[|rs| - 1].max
    ensures i < |rs| && Within(rs[i], v)
    ensures forall j :: 0 <= j < |rs| && Within(rs[j], v) ==> j == i
  {
    if v < rs[0].max {
      i := 0;
    } else {
      var tail := rs[1..];
      assert forall k :: 0 <= k < |tail| ==> tail[k] == rs[k + 1];
      var t := CoveredOnce(tail, v);
      i := t + 1;
    }
    forall j | 0 <= j < |rs| && Within(rs[j], v)
      ensures j == i
    {
      AtMostOneRange(rs, v, i, j);
    }
  }

  /** With a key of the table selected, `inRange` is membership in that key's range; with any other key it holds. */
  lemma InRangeExact(v: real, rs: seq<Range>, i: nat)
    requires Contiguous(rs) && i < |rs|
    ensures InRange(v, rs, rs[i].key) <==> Within(rs[i], v)
    ensures forall s :: (forall j :: 0 <= j < |rs| ==> rs[j].key != s) ==> InRange(v, rs, s)
  {
    var r := FindRange(rs, rs[i].key);
    var j :| 0 <= j < |rs| && rs[j] == r.value;
  }

  /** The price buckets start at 1000 UF: a project without a price, or cheaper, matches no ticket range. */
  lemma CheapProjectNoTicket(p: DashboardProject, i: nat)
    requires OrZero(p.avgPriceUf) < 1000.0 && i < |PriceRanges|
    ensures !MatchesTicket(p, PriceRanges[i].key)
  {
    RangeTablesContiguous();
    InRangeExact(OrZero(p.avgPriceUf), PriceRanges, i);
    if i > 0 {
      ContiguousOrdered(PriceRanges, 0, i);
    }
  }

  /** Absorption is a percentage when no more units are sold than exist, and then lies in exactly one range. */
  lemma AbsorptionInOneRange(p: DashboardProject) returns (i: nat)
    requires 0.0 <= OrZero(p.soldUnits) <= OrZero(p.totalUnits)
    ensures 0.0 <= AbsorptionPct(p) <= 100.0
    ensures i < |AbsorptionRanges| && Within(AbsorptionRanges[i], AbsorptionPct(p))
    ensures forall j :: 0 <= j < |AbsorptionRanges| && Within(AbsorptionRanges[j], AbsorptionPct(p)) ==> j == i
  {
    var total := OrZero(p.totalUnits);
    var sold := OrZero(p.soldUnits);
    if total > 0.0 {
      assert sold / total <= 1.0;
    }
    RangeTablesContiguous();
    i := CoveredOnce(AbsorptionRanges, AbsorptionPct(p));
  }

  /**
   * A project that does not sell has `MAX_SAFE_INTEGER` months of offer,
   * which is outside every months-of-offer range, the open-ended `24+`
   * included, since each range excludes its upper end.
   */
  lemma StalledProjectInNoMaoRange(p: DashboardProject, i: nat)
    requires OrZero(p.salesSpeedMonthly) <= 0.0 && i < |MaoRanges|
    ensures Mao(p) == MaxSafeInteger
    ensures !InRange(Mao(p), MaoRanges, MaoRanges[i].key)
  {
    RangeTablesContiguous();
    InRangeExact(Mao(p), MaoRanges, i);
  }

  /** A selling project with stock has a non-negative months of offer, in exactly one range below `MAX_SAFE_INTEGER`. */
  lemma MaoInOneRange(p: DashboardProject) returns (i: nat)
    requires OrZero(p.salesSpeedMonthly) > 0.0 && OrZero(p.availableUnits) >= 0.0 && Mao(p) < MaxSafeInteger
    ensures i < |MaoRanges| && Within(MaoRanges[i], Mao(p))
    ensures forall j :: 0 <= j < |MaoRanges| && Within(MaoRanges[j], Mao(p)) ==> j == i
  {
    RangeTablesContiguous();
    i := CoveredOnce(MaoRanges, Mao(p));
  }

  // ---------------------------------------------------------------------------
  // isSubsidized
  // ---------------------------------------------------------------------------

  /** `isSubsidized`: a project with a subsidy or a category, neither of which says "sin subsidio". */
  predicate IsSubsidized(p: DashboardProject) {
    var subsidy := Normalize(p.subsidyType);
    var category := Normalize(p.category);
    if subsidy == "" && category == "" then false
    else if Contains(subsidy, "sin subsidio") || Contains(category, "sin subsidio") then false
    else true
  }

  // ---------------------------------------------------------------------------
  // Filters
  // ---------------------------------------------------------------------------

  /** The value of every select; `'all'` leaves a select inactive. */
  datatype FilterState = FilterState(
    year: string,
    semester: string,
    quarter: string,
    region: string,
    commune: string,
    product: string,
    typology: string,
    ticketRange: string,
    propertyStatus: string,
    projectType: string,
    subsidyType: string,
    absorptionRange: string,
    maoRange: string)

  const All: string := "all"

  /** `DEFAULT_FILTERS`. */
  const DefaultFilters: FilterState := FilterState(All, All, All, All, All, All, All, All, All, All, All, All, All)

  /** `QUARTER_TO_PERIOD`: the semester each quarter falls in. */
  const QuarterToPeriod: map<string, string> := map["q1" := "1P", "q2" := "1P", "q3" := "2P", "q4" := "2P"]

  /** `project.year === Number(filters.year)`: a missing year never matches. */
  predicate YearIs(p: DashboardProject, selected: string) {
    p.year.Some? && JsNumber(selected) == Some(p.year.value as real)
  }

  /** The callback of `projects.filter` in `filteredProjects`: every active select must accept the project. */
  predicate Matches(p: DashboardProject, f: FilterState) {
    Passes(p, Year, f.year) && Passes(p, Semester, f.semester) && Passes(p, Quarter, f.quarter) &&
    Passes(p, Region, f.region) && Passes(p, Commune, f.commune) && Passes(p, Product, f.product) &&
    Passes(p, TypologyKey, f.typology) && Passes(p, TicketRange, f.ticketRange) &&
    Passes(p, AbsorptionRange, f.absorptionRange) && Passes(p, MaoRange, f.maoRange) &&
    Passes(p, PropertyStatus, f.propertyStatus) && Passes(p, ProjectType, f.projectType) &&
    Passes(p, SubsidyType, f.subsidyType)
  }

  /** The test of one select with value `v`; `'all'` (and, for the project type, any other value) lets every project through. */
  predicate Passes(p: DashboardProject, k: FilterKey, v: string) {
    match k
    case Year => v == All || YearIs(p, v)
    case Semester => v == All || Normalize(p.period) == Normalize(Some(v))
    case Quarter => v == All || (v in QuarterToPeriod && Normalize(p.period) == Normalize(Some(QuarterToPeriod[v])))
    case Region => v == All || Normalize(p.region) == v
    case Commune => v == All || Normalize(p.commune) == v
    case Product => v == All || Normalize(p.propertyType) == v
    case TypologyKey => v == All || MatchesTypology(p, v)
    case TicketRange => v == All || MatchesTicket(p, v)
    case AbsorptionRange => v == All || InRange(AbsorptionPct(p), AbsorptionRanges, v)
    case MaoRange => v == All || InRange(Mao(p), MaoRanges, v)
    case PropertyStatus => v == All || Normalize(p.projectStatus) == v || Normalize(p.constructionStatus) == v
    case ProjectType => (v != "sin_subsidio" || !IsSubsidized(p)) && (v != "con_subsidio" || IsSubsidized(p))
    case SubsidyType => v == All || Normalize(p.subsidyType) == v
  }

  function MatchesFilters(f: FilterState): DashboardProject -> bool {
    p => Matches(p, f)
  }

  /** `filteredProjects`. */
  function FilteredProjects(projects: seq<DashboardProject>, f: FilterState): seq<DashboardProject> {
    Filter(projects, MatchesFilters(f))
  }

  /** With every select at `'all'` nothing is filtered out. */
  lemma FilteredDefault(projects: seq<DashboardProject>)
    ensures FilteredProjects(projects, DefaultFilters) == projects
  {
    FilterAll(projects, MatchesFilters(DefaultFilters));
  }

  /** The filtered projects are, in their order, the projects every active select accepts. */
  lemma FilteredExact(projects: seq<DashboardProject>, f: FilterState)
    ensures multiset(FilteredProjects(projects, f)) <= multiset(projects)
    ensures forall p :: p in FilteredProjects(projects, f) <==> p in projects && Matches(p, f)
  {
    FilterMembers(projects, MatchesFilters(f));
    FilterIn(projects, MatchesFilters(f));
  }

  /** Selecting a quarter filters like selecting its semester: q1 and q2 are `1P`, q3 and q4 are `2P`. */
  lemma QuarterAsSemester(p: DashboardProject, f: FilterState, q: string)
    requires f.quarter == All && f.semester == All && q in QuarterToPeriod
    ensures Matches(p, f.(quarter := q)) <==> Matches(p, f.(semester := QuarterToPeriod[q]))
    ensures QuarterToPeriod[q] == if q == "q1" || q == "q2" then "1P" else "2P"
  {
    var period := QuarterToPeriod[q];
    QuarterPeriod(q);
    assert period != All;
    assert Passes(p, Quarter, q) <==> Passes(p, Semester, period);
  }

  /** The quarters are q1 to q4, none of them `'all'`, and each maps to its semester. */
  lemma QuarterPeriod(q: string)
    requires q in QuarterToPeriod
    ensures q != All
    ensures QuarterToPeriod[q] == if q == "q1" || q == "q2" then "1P" else "2P"
  {
    assert q == "q1" || q == "q2" || q == "q3" || q == "q4";
  }

  /** A quarter outside q1 to q4 keeps no project. */
  lemma UnknownQuarterKeepsNothing(p: DashboardProject, f: FilterState)
    requires f.quarter != All && f.quarter !in QuarterToPeriod
    ensures !Matches(p, f)
  {
  }

  /** Choosing a year from the year select keeps exactly the projects of that year. */
  lemma YearFilterSelects(p: DashboardProject, y: nat)
    ensures YearIs(p, NatToString(y)) <==> p.year == Some(y)
  {
    PyFloatOfNatToString(y);
    var s := NatToString(y);
    assert !IsSpace(s[0]) && !IsSpace(s[|s| - 1]);
    StripNoSpace(s);
  }

  /** "sin_subsidio" and "con_subsidio" split the projects the other selects keep. */
  lemma SubsidyTypesPartition(p: DashboardProject, f: FilterState)
    requires f.projectType == All
    ensures Matches(p, f.(projectType := "sin_subsidio")) <==> Matches(p, f) && !IsSubsidized(p)
    ensures Matches(p, f.(projectType := "con_subsidio")) <==> Matches(p, f) && IsSubsidized(p)
  {
    assert Passes(p, ProjectType, All);
    assert Passes(p, ProjectType, "sin_subsidio") <==> !IsSubsidized(p);
    assert Passes(p, ProjectType, "con_subsidio") <==> IsSubsidized(p);
  }

  // ---------------------------------------------------------------------------
  // updateFilter
  // ---------------------------------------------------------------------------

  /** The keys of `FilterState`. */
  datatype FilterKey = Year | Semester | Quarter | Region | Commune | Product | TypologyKey | TicketRange
                     | PropertyStatus | ProjectType | SubsidyType | AbsorptionRange | MaoRange

  /** `filters[key]`. */
  function Get(f: FilterState, k: FilterKey): string {
    match k
    case Year => f.year
    case Semester => f.semester
    case Quarter => f.quarter
    case Region => f.region
    case Commune => f.commune
    case Product => f.product
    case TypologyKey => f.typology
    case TicketRange => f.ticketRange
    case PropertyStatus => f.propertyStatus
    case ProjectType => f.projectType
    case SubsidyType => f.subsidyType
    case AbsorptionRange => f.absorptionRange
    case MaoRange => f.maoRange
  }

  /** `{ ...f, [key]: value }`. */
  function With(f: FilterState, k: FilterKey, v: string): FilterState {
    match k
    case Year => f.(year := v)
    case Semester => f.(semester := v)
    case Quarter => f.(quarter := v)
    case Region => f.(region := v)
    case Commune => f.(commune := v)
    case Product => f.(product := v)
    case TypologyKey => f.(typology := v)
    case TicketRange => f.(ticketRange := v)
    case PropertyStatus => f.(propertyStatus := v)
    case ProjectType => f.(projectType := v)
    case SubsidyType => f.(subsidyType := v)
    case AbsorptionRange => f.(absorptionRange := v)
    case MaoRange => f.(maoRange := v)
  }

  /** The updater passed to `setFilters` by `updateFilter`: a new region also clears the commune. */
  function Updated(f: FilterState, k: FilterKey, v: string): FilterState {
    var next := With(f, k, v);
    if k == Region then next.(commune := All) else next
  }

  /**
   * `updateFilter` sets the given select and leaves every other one as it
   * was, except that a new region resets the commune to `'all'`.
   */
  lemma UpdateOnlyKey(f: FilterState, k: FilterKey, v: string)
    ensures Get(Updated(f, k, v), k) == v
    ensures forall k' :: k' != k && !(k == Region && k' == Commune) ==> Get(Updated(f, k, v), k') == Get(f, k')
    ensures k == Region ==> Updated(f, k, v).commune == All
  {
  }

  /**
   * Activating a select that was at `'all'` can only narrow the filtered
   * projects, except through the commune reset that a new region triggers.
   */
  lemma UpdateNarrows(p: DashboardProject, f: FilterState, k: FilterKey, v: string)
    requires Get(f, k) == All && (k == Region ==> f.commune == All)
    requires Matches(p, Updated(f, k, v))
    ensures Matches(p, f)
  {
    UpdateOnlyKey(f, k, v);
    PassesAll(p, k);
    PassesAll(p, Commune);
  }

  /** `'all'` lets every project through every select. */
  lemma PassesAll(p: DashboardProject, k: FilterKey)
    ensures Passes(p, k, All)
  {
  }

  // ---------------------------------------------------------------------------
  // Projects in scope
  // ---------------------------------------------------------------------------

  function Stock(p: DashboardProject): real { OrZero(p.availableUnits) }
  function SoldOf(p: DashboardProject): real { OrZero(p.soldUnits) }
  function Speed(p: DashboardProject): real { OrZero(p.salesSpeedMonthly) }

  /** `p.latitude && p.longitude`: a zero coordinate counts as missing. */
  predicate OnMap(p: DashboardProject) {
    Truthy(p.latitude) && Truthy(p.longitude)
  }

  /** `visibleSet.has(project.id)`. */
  function IdIn(ids: seq<string>): DashboardProject -> bool {
    (p: DashboardProject) => p.id in ids
  }

  // ---------------------------------------------------------------------------
  // kpis
  // ---------------------------------------------------------------------------

  datatype DeltaType = ModerateIncrease | ModerateDecrease

  datatype Kpis = Kpis(
    projectCount: nat,
    totalStock: real,
    avgSalesSpeed: real,
    totalSold: real,
    scopeDelta: real,
    deltaType: DeltaType)

  /** `Number(x.toFixed(1))`: the magnitude rounded to one decimal, ties away from zero, then the sign. */
  function ToFixed1(x: real): real {
    var m := if x >= 0.0 then x else -x;
    var n := (m * 10.0 + 0.5).Floor;
    if x >= 0.0 then n as real / 10.0 else -(n as real / 10.0)
  }

  /** A magnitude rounded half up to tenths: a whole number of tenths within half a tenth. */
  lemma RoundTenths(m: real)
    requires m >= 0.0
    ensures var n := (m * 10.0 + 0.5).Floor;
      n >= 0 && -0.05 < n as real / 10.0 - m <= 0.05 && (n >= 1 <==> m >= 0.05)
  {
    var y := m * 10.0 + 0.5;
    var n := y.Floor;
    assert n as real <= y < n as real + 1.0;
  }

  /** One decimal is kept: the result is a whole number of tenths, within half a tenth of `x`, and keeps its sign. */
  lemma ToFixed1Close(x: real)
    ensures -0.05 <= ToFixed1(x) - x <= 0.05
    ensures (ToFixed1(x) * 10.0).Floor as real == ToFixed1(x) * 10.0
    ensures x >= 0.0 ==> ToFixed1(x) >= 0.0
    ensures ToFixed1(x) < 0.0 <==> x <= -0.05
  {
    var m := if x >= 0.0 then x else -x;
    var n := (m * 10.0 + 0.5).Floor;
    RoundTenths(m);
    var t := if x >= 0.0 then n else -n;
    assert ToFixed1(x) * 10.0 == t as real;
  }

  /** `projects.length || 1`. */
  function Baseline(projects: seq<DashboardProject>): nat {
    if |projects| == 0 then 1 else |projects|
  }

  /** `kpis`: figures over the projects in scope, and the scope's size against all projects. */
  function KpisOf(analysis: seq<DashboardProject>, projects: seq<DashboardProject>): Kpis {
    var avgSalesSpeed := if |analysis| > 0 then ToFixed1(SumOf(analysis, Speed) / |analysis| as real) else 0.0;
    var scopeDelta := ToFixed1((|analysis| as real - |projects| as real) / Baseline(projects) as real * 100.0);
    Kpis(|analysis|, SumOf(analysis, Stock), avgSalesSpeed, SumOf(analysis, SoldOf), scopeDelta,
         if scopeDelta >= 0.0 then ModerateIncrease else ModerateDecrease)
  }

  /**
   * The delta is shown as a decrease exactly when the scope lacks at least
   * one two-thousandth of the projects, the smallest shortfall that rounds
   * to -0.1 percent.
   */
  lemma DeltaTypeMeaning(analysis: seq<DashboardProject>, projects: seq<DashboardProject>)
    ensures KpisOf(analysis, projects).deltaType == ModerateDecrease <==>
            (|projects| as real - |analysis| as real) >= 0.0005 * Baseline(projects) as real
  {
    var k := KpisOf(analysis, projects);
    assert k.deltaType == ModerateDecrease <==> k.scopeDelta < 0.0;
    DeltaSign(|analysis| as real, |projects| as real, Baseline(projects) as real);
  }

  /** The rounded percentage change from `n` to `a` is negative exactly when `a` falls short by 0.05 percent of `b`. */
  lemma DeltaSign(a: real, n: real, b: real)
    requires b > 0.0
    ensures ToFixed1((a - n) / b * 100.0) < 0.0 <==> n - a >= 0.0005 * b
  {
    var q := (n - a) / b;
    assert (a - n) / b == -q;
    var x := (a - n) / b * 100.0;
    assert x == -(q * 100.0);
    ToFixed1Close(x);
    DivAtLeast(n - a, b, 0.0005);
    assert x <= -0.05 <==> q >= 0.0005;
  }

  /** Dividing by a positive number keeps the comparison with the product. */
  lemma DivAtLeast(a: real, b: real, c: real)
    requires b > 0.0
    ensures a / b >= c <==> a >= c * b
  {
    var q := a / b;
    assert q * b == a;
    if q >= c {
      assert (q - c) * b >= 0.0;
    } else {
      assert (c - q) * b > 0.0;
    }
  }

  /** The average speed is the mean monthly speed of the projects in scope, to one decimal. */
  lemma AvgSalesSpeedClose(analysis: seq<DashboardProject>, projects: seq<DashboardProject>)
    requires analysis != []
    ensures var mean := SumOf(analysis, Speed) / |analysis| as real;
      -0.05 <= KpisOf(analysis, projects).avgSalesSpeed - mean <= 0.05
  {
    ToFixed1Close(SumOf(analysis, Speed) / |analysis| as real);
  }

  // ---------------------------------------------------------------------------
  // regionData
  // ---------------------------------------------------------------------------

  /** `p.region || 'Sin Región'`. */
  function RegionLabel(p: DashboardProject): (r: string)
    ensures r != ""
  {
    if p.region.Some? && p.region.value != "" then p.region.value else "Sin Regi\U{F3}n"
  }

  /** The figures the region records add up, keyed by the region label. */
  function AsRaw(p: DashboardProject): Analytics.RawProject {
    Analytics.RawProject(Some(RegionLabel(p)), p.totalUnits, p.soldUnits, p.availableUnits, p.avgPriceUf, None)
  }

  /** One record per region label, in order of first appearance. */
  function RegionRows(ps: seq<DashboardProject>): seq<Analytics.RegionData> {
    Analytics.RegionTable(MapSeq(ps, AsRaw))
  }

  /** What `regionData` returns: the records by decreasing number of projects, at most five. */
  function RegionData(ps: seq<DashboardProject>): seq<Analytics.RegionData> {
    Take(Sort(RegionRows(ps), ByKeyDesc(Analytics.Projects)), 5)
  }

  /** `regionData`: the `regionMap` loop, then the sort and the cut. */
  method RegionChart(ps: seq<DashboardProject>) returns (rows: seq<Analytics.RegionData>)
    ensures rows == RegionData(ps)
  {
    var all := Analytics.GroupByRegion(MapSeq(ps, AsRaw));
    rows := Take(Sort(all, ByKeyDesc(Analytics.Projects)), 5);
  }

  /**
   * The region records split the projects in scope: their project counts add
   * up to the number of projects and their stock to the total stock.
   */
  lemma RegionRowsPartition(ps: seq<DashboardProject>)
    ensures SumOf(RegionRows(ps), Analytics.Projects) == |ps| as real
    ensures SumOf(RegionRows(ps), (r: Analytics.RegionData) => r.availableUnits) == SumOf(ps, Stock)
  {
    RegionCountsPartition(MapSeq(ps, AsRaw));
    RegionStockPartition(ps, MapSeq(ps, AsRaw));
  }

  lemma RegionCountsPartition(raw: seq<Analytics.RawProject>)
    ensures SumOf(Analytics.RegionTable(raw), Analytics.Projects) == |raw| as real
  {
    var rows := Analytics.RegionTable(raw);
    Analytics.RegionTablePartition(raw);
    SumOfCorrespond(rows, Analytics.Projects, rows, (r: Analytics.RegionData) => r.projects as real);
  }

  lemma RegionStockPartition(ps: seq<DashboardProject>, raw: seq<Analytics.RawProject>)
    requires raw == MapSeq(ps, AsRaw)
    ensures SumOf(Analytics.RegionTable(raw), (r: Analytics.RegionData) => r.availableUnits) == SumOf(ps, Stock)
  {
    Analytics.RegionTablePartition(raw);
    SumOfCorrespond(raw, Analytics.Available, ps, Stock);
  }

  /** The chart keeps the five records with most projects, by decreasing number of projects. */
  lemma RegionDataChosen(ps: seq<DashboardProject>)
    ensures IsTop(RegionData(ps), RegionRows(ps), Analytics.Projects, 5)
  {
    TopByKey(RegionRows(ps), Analytics.Projects, 5);
  }

  // ---------------------------------------------------------------------------
  // mixData
  // ---------------------------------------------------------------------------

  datatype MixEntry = MixEntry(typology: string, count: nat)

  /** `p.property_type || 'Otros'`. */
  function TypeOf(p: DashboardProject): string {
    if p.propertyType.Some? && p.propertyType.value != "" then p.propertyType.value else "Otros"
  }

  /** One entry per property type, in order of first appearance, with its number of projects. */
  function MixTable(ps: seq<DashboardProject>): seq<MixEntry> {
    var ks := Keys(ps, TypeOf);
    seq(|ks|, j requires 0 <= j < |ks| => MixEntry(ks[j], |Members(ps, TypeOf, ks[j])|))
  }

  function MixCount(e: MixEntry): real { e.count as real }

  /** What `mixData` returns: the entries by decreasing count, at most six. */
  function MixData(ps: seq<DashboardProject>): seq<MixEntry> {
    Take(Sort(MixTable(ps), ByKeyDesc(MixCount)), 6)
  }

  function NoCount(k: string): nat { 0 }

  /** `(mixMap.get(type) || 0) + 1`. */
  function CountOne(c: nat, p: DashboardProject): nat { c + 1 }

  lemma {:induction false} CountOneFold(g: seq<DashboardProject>)
    ensures FoldLeft(0, g, CountOne) == |g|
  {
    if g != [] {
      CountOneFold(g[..|g| - 1]);
    }
  }

  /** `Array.from(mixMap.entries())`. */
  function MixEntries(keys: seq<string>, counts: map<string, nat>): (entries: seq<MixEntry>)
    requires forall k :: k in keys ==> k in counts
    ensures |entries| == |keys| && forall j :: 0 <= j < |keys| ==> entries[j] == MixEntry(keys[j], counts[keys[j]])
  {
    seq(|keys|, j requires 0 <= j < |keys| => MixEntry(keys[j], counts[keys[j]]))
  }

  lemma MixEntriesOfMap(ps: seq<DashboardProject>, keys: seq<string>, counts: map<string, nat>)
    requires AccumulatedBy(ps, TypeOf, NoCount, CountOne, keys, counts)
    ensures forall k :: k in keys ==> k in counts
    ensures MixEntries(keys, counts) == MixTable(ps)
  {
    forall j | 0 <= j < |keys|
      ensures counts[keys[j]] == |Members(ps, TypeOf, keys[j])|
    {
      CountOneFold(Members(ps, TypeOf, keys[j]));
    }
  }

  /** `mixData`: the `mixMap` loop, then the sort and the cut. */
  method MixChart(ps: seq<DashboardProject>) returns (mix: seq<MixEntry>)
    ensures mix == MixData(ps)
  {
    var keys, counts := AccumulateByKey(ps, TypeOf, NoCount, CountOne);
    MixEntriesOfMap(ps, keys, counts);
    mix := Take(Sort(MixEntries(keys, counts), ByKeyDesc(MixCount)), 6);
  }

  /** The property types split the projects in scope: their counts add up to the number of projects. */
  lemma MixPartition(ps: seq<DashboardProject>)
    ensures SumOf(MixTable(ps), MixCount) == |ps| as real
  {
    var ks := Keys(ps, TypeOf);
    var one := (p: DashboardProject) => 1.0;
    var g := (k: string) => SumOf(Members(ps, TypeOf, k), one);
    MixCountsCorrespond(ps, one, g);
    SumOfGroups(ps, TypeOf, one, ks, g);
    SumOfOnes(ps, one);
  }

  lemma MixCountsCorrespond(ps: seq<DashboardProject>, one: DashboardProject -> real, g: string -> real)
    requires forall p :: one(p) == 1.0
    requires forall k :: g(k) == SumOf(Members(ps, TypeOf, k), one)
    ensures SumOf(MixTable(ps), MixCount) == SumOf(Keys(ps, TypeOf), g)
  {
    var ks := Keys(ps, TypeOf);
    var table := MixTable(ps);
    forall j | 0 <= j < |ks|
      ensures MixCount(table[j]) == g(ks[j])
    {
      SumOfOnes(Members(ps, TypeOf, ks[j]), one);
    }
    SumOfCorrespond(table, MixCount, ks, g);
  }

  /** No property type has two entries. */
  lemma MixTableDistinct(ps: seq<DashboardProject>)
    ensures forall j, l :: 0 <= j < l < |MixTable(ps)| ==> MixTable(ps)[j].typology != MixTable(ps)[l].typology
  {
  }

  /** The chart keeps the six most frequent property types, by decreasing count. */
  lemma MixDataChosen(ps: seq<DashboardProject>)
    ensures IsTop(MixData(ps), MixTable(ps), MixCount, 6)
  {
    TopByKey(MixTable(ps), MixCount, 6);
  }

  // ---------------------------------------------------------------------------
  // topCommunes
  // ---------------------------------------------------------------------------

  datatype CommuneStock = CommuneStock(commune: string, stock: real)

  /** `p.commune || 'Sin comuna'`. */
  function CommuneOf(p: DashboardProject): string {
    if p.commune.Some? && p.commune.value != "" then p.commune.value else "Sin comuna"
  }

  /** One entry per commune, in order of first appearance, with the stock of its projects. */
  function CommuneTable(ps: seq<DashboardProject>): seq<CommuneStock> {
    var ks := Keys(ps, CommuneOf);
    seq(|ks|, j requires 0 <= j < |ks| => CommuneStock(ks[j], SumOf(Members(ps, CommuneOf, ks[j]), Stock)))
  }

  function StockOf(e: CommuneStock): real { e.stock }

  /** What `topCommunes` returns: the communes by decreasing stock, at most five. */
  function TopCommunes(ps: seq<DashboardProject>): seq<CommuneStock> {
    Take(Sort(CommuneTable(ps), ByKeyDesc(StockOf)), 5)
  }

  function NoStock(k: string): real { 0.0 }

  /** `(map.get(commune) || 0) + (p.available_units || 0)`. */
  function AddStock(s: real, p: DashboardProject): real { s + Stock(p) }

  lemma {:induction false} AddStockFold(g: seq<DashboardProject>)
    ensures FoldLeft(0.0, g, AddStock) == SumOf(g, Stock)
  {
    if g != [] {
      AddStockFold(g[..|g| - 1]);
    }
  }

  function CommuneEntries(keys: seq<string>, stock: map<string, real>): (entries: seq<CommuneStock>)
    requires forall k :: k in keys ==> k in stock
    ensures |entries| == |keys| && forall j :: 0 <= j < |keys| ==> entries[j] == CommuneStock(keys[j], stock[keys[j]])
  {
    seq(|keys|, j requires 0 <= j < |keys| => CommuneStock(keys[j], stock[keys[j]]))
  }

  lemma CommuneEntriesOfMap(ps: seq<DashboardProject>, keys: seq<string>, stock: map<string, real>)
    requires AccumulatedBy(ps, CommuneOf, NoStock, AddStock, keys, stock)
    ensures forall k :: k in keys ==> k in stock
    ensures CommuneEntries(keys, stock) == CommuneTable(ps)
  {
    forall j | 0 <= j < |keys|
      ensures stock[keys[j]] == SumOf(Members(ps, CommuneOf, keys[j]), Stock)
    {
      AddStockFold(Members(ps, CommuneOf, keys[j]));
    }
  }

  /** `topCommunes`: the stock map loop, then the sort and the cut. */
  method TopCommunesChart(ps: seq<DashboardProject>) returns (top: seq<CommuneStock>)
    ensures top == TopCommunes(ps)
  {
    var keys, stock := AccumulateByKey(ps, CommuneOf, NoStock, AddStock);
    CommuneEntriesOfMap(ps, keys, stock);
    top := Take(Sort(CommuneEntries(keys, stock), ByKeyDesc(StockOf)), 5);
  }

  /** The communes split the stock in scope: their stocks add up to the total stock of the figures. */
  lemma CommunePartition(ps: seq<DashboardProject>, projects: seq<DashboardProject>)
    ensures SumOf(CommuneTable(ps), StockOf) == KpisOf(ps, projects).totalStock
  {
    var ks := Keys(ps, CommuneOf);
    var g := (k: string) => SumOf(Members(ps, CommuneOf, k), Stock);
    SumOfCorrespond(CommuneTable(ps), StockOf, ks, g);
    SumOfGroups(ps, CommuneOf, Stock, ks, g);
  }

  /** The chart keeps the five communes with most stock, by decreasing stock. */
  lemma TopCommunesChosen(ps: seq<DashboardProject>)
    ensures IsTop(TopCommunes(ps), CommuneTable(ps), StockOf, 5)
  {
    TopByKey(CommuneTable(ps), StockOf, 5);
  }

  // ---------------------------------------------------------------------------
  // priceRangeData
  // ---------------------------------------------------------------------------

  datatype PriceRangeRow = PriceRangeRow(range: string, oferta: real, vendidas: real)

  /** `price >= range.min && price < range.max`, with a missing price read as 0. */
  function InBucket(r: Range): DashboardProject -> bool {
    (p: DashboardProject) => Within(r, OrZero(p.avgPriceUf))
  }

  function BucketRow(ps: seq<DashboardProject>, r: Range): PriceRangeRow {
    var scoped := Filter(ps, InBucket(r));
    PriceRangeRow(r.caption, SumOf(scoped, Stock), SumOf(scoped, SoldOf))
  }

  /** `priceRangeData`: one row per price range, in the order of `PRICE_RANGES`. */
  function PriceRangeData(ps: seq<DashboardProject>): seq<PriceRangeRow> {
    seq(|PriceRanges|, i requires 0 <= i < |PriceRanges| => BucketRow(ps, PriceRanges[i]))
  }

  /**
   * The price ranges being contiguous half-open intervals, a project is
   * counted in at most one row; below 1000 UF, or without a price, in none.
   */
  lemma PriceBucketsDisjoint(p: DashboardProject, i: nat, j: nat)
    requires i < |PriceRanges| && j < |PriceRanges|
    ensures InBucket(PriceRanges[i])(p) && InBucket(PriceRanges[j])(p) ==> i == j
    ensures OrZero(p.avgPriceUf) < 1000.0 ==> !InBucket(PriceRanges[i])(p)
  {
    RangeTablesContiguous();
    if InBucket(PriceRanges[i])(p) && InBucket(PriceRanges[j])(p) {
      AtMostOneRange(PriceRanges, OrZero(p.avgPriceUf), i, j);
    }
    if i > 0 {
      ContiguousOrdered(PriceRanges, 0, i);
    }
  }

  /** Each row adds up the stock and the sold units of the projects of its range only. */
  lemma PriceRangeRowsExact(ps: seq<DashboardProject>, i: nat)
    requires i < |PriceRanges|
    ensures |PriceRangeData(ps)| == |PriceRanges| && PriceRangeData(ps)[i].range == PriceRanges[i].caption
    ensures forall p :: p in Filter(ps, InBucket(PriceRanges[i])) <==> p in ps && Within(PriceRanges[i], OrZero(p.avgPriceUf))
  {
    FilterIn(ps, InBucket(PriceRanges[i]));
  }

  // ---------------------------------------------------------------------------
  // The panel's state
  // ---------------------------------------------------------------------------

  /**
   * The state of `DashboardMapFilters`: the projects it was given, the
   * selects, the ids the map reports as visible, and the viewport switch.
   * `defaultsObject` records that `filters` is the `DEFAULT_FILTERS` object
   * itself, which is when `setFilters(DEFAULT_FILTERS)` changes nothing and
   * the effect clearing the visible ids does not run.
   */
  class FilterPanel {
    const projects: seq<DashboardProject>
    var filters: FilterState
    var defaultsObject: bool
    var visibleProjectIds: Option<seq<string>>
    var useViewportOnly: bool

    constructor(projects: seq<DashboardProject>)
      ensures this.projects == projects && filters == DefaultFilters && defaultsObject
      ensures visibleProjectIds == None && useViewportOnly
    {
      this.projects := projects;
      filters := DefaultFilters;
      defaultsObject := true;
      visibleProjectIds := None;
      useViewportOnly := true;
    }

    /** `filteredProjects`. */
    function Filtered(): (r: seq<DashboardProject>)
      reads this
      ensures multiset(r) <= multiset(projects)
      ensures forall p :: p in r <==> p in projects && Matches(p, filters)
    {
      FilteredExact(projects, filters);
      FilteredProjects(projects, filters)
    }

    /** `mapProjects`: the filtered projects with both coordinates. */
    function MapProjects(): (r: seq<DashboardProject>)
      reads this
      ensures forall p :: p in r <==> p in Filtered() && OnMap(p)
    {
      FilterIn(Filtered(), OnMap);
      Filter(Filtered(), OnMap)
    }

    /** `mapScopedProjects`: the filtered projects the map reports as visible, all of them before it reports. */
    function MapScoped(): (r: seq<DashboardProject>)
      reads this
      ensures visibleProjectIds.None? ==> r == Filtered()
      ensures visibleProjectIds.Some? ==> forall p :: p in r <==> p in Filtered() && p.id in visibleProjectIds.value
      ensures multiset(r) <= multiset(Filtered())
    {
      if visibleProjectIds.None? then Filtered()
      else
        FilterIn(Filtered(), IdIn(visibleProjectIds.value));
        FilterMembers(Filtered(), IdIn(visibleProjectIds.value));
        Filter(Filtered(), IdIn(visibleProjectIds.value))
    }

    /** `analysisProjects`: the visible ones with the viewport switch on, all the filtered ones with it off. */
    function Analysis(): (r: seq<DashboardProject>)
      reads this
      ensures !useViewportOnly ==> r == Filtered()
      ensures multiset(r) <= multiset(Filtered()) <= multiset(projects)
    {
      if useViewportOnly then MapScoped() else Filtered()
    }

    /** `kpis`. */
    function CurrentKpis(): Kpis
      reads this
    {
      KpisOf(Analysis(), projects)
    }

    /** `updateFilter`: the select changes, and the new filters object clears the visible ids. */
    method UpdateFilter(k: FilterKey, v: string)
      modifies this
      ensures filters == Updated(old(filters), k, v) && !defaultsObject
      ensures visibleProjectIds == None && useViewportOnly == old(useViewportOnly)
      ensures MapScoped() == Filtered()
    {
      filters := Updated(filters, k, v);
      defaultsObject := false;
      visibleProjectIds := None;
    }

    /**
     * `resetFilters`: every select back to `'all'`, so every project is
     * filtered in; the visible ids are cleared unless the filters already
     * were the default object.
     */
    method ResetFilters()
      modifies this
      ensures filters == DefaultFilters && defaultsObject && Filtered() == projects
      ensures visibleProjectIds == if old(defaultsObject) then old(visibleProjectIds) else None
      ensures useViewportOnly == old(useViewportOnly)
    {
      if !defaultsObject {
        visibleProjectIds := None;
      }
      filters := DefaultFilters;
      defaultsObject := true;
      FilteredDefault(projects);
    }

    /** `onVisibleProjectsChange`: the map reports the ids in view. */
    method SetVisibleProjectIds(ids: seq<string>)
      modifies this
      ensures visibleProjectIds == Some(ids)
      ensures filters == old(filters) && defaultsObject == old(defaultsObject) && useViewportOnly == old(useViewportOnly)
    {
      visibleProjectIds := Some(ids);
    }

    /** The viewport switch. */
    method SetUseViewportOnly(on: bool)
      modifies this
      ensures useViewportOnly == on
      ensures filters == old(filters) && defaultsObject == old(defaultsObject) && visibleProjectIds == old(visibleProjectIds)
    {
      useViewportOnly := on;
    }
  }
}
