/**
 Reading and printing key combinations, `ctrl+alt+kp1` (src/input/keys.rs).

 What a text means is given by the multiset of the readings of its `+`-separated tokens:
 one reading per contained modifier plus one trigger. The parser is proved to accept exactly
 the texts that mean a combination, so the order, the case, the padding and the alias of a
 token cannot matter, and the printer is proved to be its right inverse.
*/
module ComboNames {
  import opened Wrappers
  import opened Keys

  // ---- Characters and tokens -------------------------------------------------------------

  function LowerChar(c: char): char {
    if 'A' <= c <= 'Z' then (c as int + 32) as char else c
  }

  function UpperChar(c: char): char {
    if 'a' <= c <= 'z' then (c as int - 32) as char else c
  }

  function Lower(s: string): (r: string)
    ensures |r| == |s|
  {
    seq(|s|, i requires 0 <= i < |s| => LowerChar(s[i]))
  }

  function Upper(s: string): (r: string)
    ensures |r| == |s|
  {
    seq(|s|, i requires 0 <= i < |s| => UpperChar(s[i]))
  }

  /** Unicode White_Space, which is what trimming removes. */
  predicate IsSpace(c: char) {
    '\t' <= c <= '\r' || c == ' ' || c == '\U{85}' || c == '\U{A0}' || c == '\U{1680}'
    || '\U{2000}' <= c <= '\U{200A}' || c == '\U{2028}' || c == '\U{2029}' || c == '\U{202F}'
    || c == '\U{205F}' || c == '\U{3000}'
  }

  function TrimStart(s: string): string {
    if s != "" && IsSpace(s[0]) then TrimStart(s[1..]) else s
  }

  function TrimEnd(s: string): string {
    if s != "" && IsSpace(s[|s| - 1]) then TrimEnd(s[..|s| - 1]) else s
  }

  function Normalize(token: string): string {
    Lower(TrimEnd(TrimStart(token)))
  }

  /** The pieces of `s` between plus signs; one more piece than there are plus signs. */
  function SplitPlus(s: string): (tokens: seq<string>)
    ensures |tokens| > 0
  {
    if s == "" then [""]
    else
      var rest := SplitPlus(s[1..]);
      if s[0] == '+' then [""] + rest else [[s[0]] + rest[0]] + rest[1..]
  }

  // ---- The key-name table ----------------------------------------------------------------

  /** evdev's table: names to codes, and the name each code is printed under. */
  datatype KeyTable = KeyTable(codeOf: map<string, KeyCode>, debugName: KeyCode -> string)

  const PREFIX := "KEY_"

  /** The name without its prefix, lower-cased; a name without the prefix is kept whole. */
  function KeyName(table: KeyTable, key: KeyCode): string {
    var name := table.debugName(key);
    Lower(if PREFIX <= name then name[|PREFIX|..] else name)
  }

  /** A name that survives printing, trimming and case folding. */
  predicate PlainName(name: string) {
    name != ""
    && (forall c :: c in name ==> c != '+' && !IsSpace(c) && !('a' <= c <= 'z'))
    && ParseModifier(Lower(name)).None?
  }

  /** What the table must offer: every parseable key is printed under a plain `KEY_` name of its own. */
  ghost predicate Sound(table: KeyTable) {
    forall s :: s in table.codeOf && PREFIX <= s ==>
      var name := table.debugName(table.codeOf[s]);
      PREFIX <= name && PlainName(name[|PREFIX|..]) && name in table.codeOf && table.codeOf[name] == table.codeOf[s]
  }

  // ---- What a token and a text mean ------------------------------------------------------

  function ParseModifier(token: string): Option<Modifier> {
    if token == "ctrl" || token == "control" then Some(Ctrl)
    else if token == "alt" then Some(Alt)
    else if token == "shift" then Some(Shift)
    else if token == "super" || token == "meta" || token == "win" then Some(Super)
    else None
  }

  function ModifierName(m: Modifier): (name: string)
    ensures ParseModifier(name) == Some(m)
  {
    match m
    case Ctrl => "ctrl"
    case Alt => "alt"
    case Shift => "shift"
    case Super => "super"
  }

  datatype Reading = EmptyToken | Modifies(m: Modifier) | Triggers(key: KeyCode) | ModifierKey | UnknownKey

  function Read(table: KeyTable, raw: string): Reading {
    var token := Normalize(raw);
    if token == "" then EmptyToken
    else match ParseModifier(token)
      case Some(m) => Modifies(m)
      case None =>
        var name := PREFIX + Upper(token);
        if name !in table.codeOf then UnknownKey
        else if IsModifier(table.codeOf[name]) then ModifierKey
        else Triggers(table.codeOf[name])
  }

  function Readings(table: KeyTable, tokens: seq<string>): (r: seq<Reading>)
    ensures |r| == |tokens|
  {
    seq(|tokens|, i requires 0 <= i < |tokens| => Read(table, tokens[i]))
  }

  function ModReadings(mods: Mods): (r: multiset<Reading>)
    ensures forall m: Modifier :: r[Modifies(m)] == (if mods.Contains(m) then 1 else 0)
    ensures forall x: Reading :: !x.Modifies? ==> r[x] == 0
  {
    multiset(set m: Modifier | mods.Contains(m) :: Modifies(m))
  }

  /** The modifier's reading, if `mods` contains it. */
  function Once(mods: Mods, m: Modifier): (r: multiset<Reading>)
    ensures forall x: Reading :: r[x] == if x == Modifies(m) && mods.Contains(m) then 1 else 0
  {
    if mods.Contains(m) then multiset{Modifies(m)} else multiset{}
  }

  /** `text` names `combo`: its tokens read as the combination's modifiers, each once, and its trigger. */
  ghost predicate Denotes(table: KeyTable, text: string, combo: KeyCombo) {
    multiset(Readings(table, SplitPlus(text))) == ModReadings(combo.mods) + multiset{Triggers(combo.key)}
  }

  // ---- The parser ------------------------------------------------------------------------

  datatype ParseError = EmptyName | RepeatedModifier | UnknownName | ModifierAsTrigger | SecondTrigger | NoTrigger

  /** What a rejection says about the text. */
  ghost predicate Explains(table: KeyTable, text: string, error: ParseError) {
    var all := multiset(Readings(table, SplitPlus(text)));
    match error
    case EmptyName => EmptyToken in all
    case RepeatedModifier => exists m: Modifier :: all[Modifies(m)] >= 2
    case UnknownName => UnknownKey in all
    case ModifierAsTrigger => ModifierKey in all
    case SecondTrigger =>
      exists j, k :: 0 <= j < k < |SplitPlus(text)|
        && Read(table, SplitPlus(text)[j]).Triggers? && Read(table, SplitPlus(text)[k]).Triggers?
    case NoTrigger => forall r :: r in all ==> r.Modifies?
  }

  function PartialReadings(mods: Mods, trigger: Option<KeyCode>): multiset<Reading> {
    ModReadings(mods) + (if trigger.Some? then multiset{Triggers(trigger.value)} else multiset{})
  }

  lemma TakeOne<T>(s: seq<T>, i: nat)
    requires i < |s|
    ensures multiset(s[..i + 1]) == multiset(s[..i]) + multiset{s[i]}
    ensures multiset(s[..i + 1]) <= multiset(s)
  {
    assert s[..i + 1] == s[..i] + [s[i]];
    assert s == s[..i + 1] + s[i + 1..];
  }

  lemma TwoOfThem<T>(s: seq<T>, j: nat, k: nat)
    requires j < k < |s|
    ensures multiset{s[j], s[k]} <= multiset(s)
  {
    TakeOne(s, k);
    assert s[..k] == s[..j] + [s[j]] + s[j + 1..k];
  }

  /** Why the next token is refused, given what was read before it. */
  function Objection(reading: Reading, mods: Mods, trigger: Option<KeyCode>): Option<ParseError> {
    match reading
    case EmptyToken => Some(EmptyName)
    case Modifies(m) => if mods.Contains(m) then Some(RepeatedModifier) else None
    case UnknownKey => Some(UnknownName)
    case ModifierKey => Some(ModifierAsTrigger)
    case Triggers(_) => if trigger.Some? then Some(SecondTrigger) else None
  }

  /** The tokens before `i` read as these modifiers and this trigger. */
  ghost predicate ReadSoFar(all: seq<Reading>, i: nat, mods: Mods, trigger: Option<KeyCode>) {
    i <= |all|
    && multiset(all[..i]) == PartialReadings(mods, trigger)
    && (trigger.Some? ==> exists j :: 0 <= j < i && all[j] == Triggers(trigger.value))
  }

  lemma ObjectionExplains(table: KeyTable, text: string, i: nat, mods: Mods, trigger: Option<KeyCode>)
    requires i < |SplitPlus(text)| && ReadSoFar(Readings(table, SplitPlus(text)), i, mods, trigger)
    ensures var objection := Objection(Read(table, SplitPlus(text)[i]), mods, trigger);
            objection.Some? ==> Explains(table, text, objection.value)
  {
    hide Read, SplitPlus, ModReadings;
    var all := Readings(table, SplitPlus(text));
    TakeOne(all, i);
    assert all[i] in multiset(all);
    if all[i].Triggers? && trigger.Some? {
      var j :| 0 <= j < i && all[j] == Triggers(trigger.value);
      assert Read(table, SplitPlus(text)[j]).Triggers?;
    }
  }

  lemma AcceptedToken(all: seq<Reading>, i: nat, mods: Mods, trigger: Option<KeyCode>)
    requires i < |all| && ReadSoFar(all, i, mods, trigger) && Objection(all[i], mods, trigger).None?
    ensures all[i].Modifies? ==> ReadSoFar(all, i + 1, mods.Set(all[i].m), trigger)
    ensures all[i].Triggers? ==> ReadSoFar(all, i + 1, mods, Some(all[i].key))
  {
    hide ModReadings;
    TakeOne(all, i);
    if all[i].Modifies? {
      AddModifier(mods, all[i].m);
    }
  }

  /** The parser accepts a text exactly when it names a combination, and then returns that one. */
  method FromStr(table: KeyTable, text: string) returns (r: Result<KeyCombo, ParseError>)
    ensures r.Success? ==> Denotes(table, text, r.value)
    ensures r.Failure? ==> Explains(table, text, r.error) && forall combo :: !Denotes(table, text, combo)
  {
    hide Read, SplitPlus, ModReadings;
    var tokens := SplitPlus(text);
    ghost var all := Readings(table, tokens);
    var mods := NO_MODS;
    var trigger: Option<KeyCode> := None;
    for i := 0 to |tokens|
      invariant ReadSoFar(all, i, mods, trigger)
    {
      var reading := Read(table, tokens[i]);
      ObjectionExplains(table, text, i, mods, trigger);
      var objection := Objection(reading, mods, trigger);
      if objection.Some? {
        ExplainedMeansNothing(table, text, objection.value);
        return Failure(objection.value);
      }
      AcceptedToken(all, i, mods, trigger);
      if reading.Modifies? {
        mods := mods.Set(reading.m);
      } else {
        trigger := Some(reading.key);
      }
    }
    assert all[..|tokens|] == all;
    match trigger
    case None =>
      ExplainedMeansNothing(table, text, NoTrigger);
      return Failure(NoTrigger);
    case Some(key) => return Success(KeyCombo(mods, key));
  }

  lemma ExplainedMeansNothing(table: KeyTable, text: string, error: ParseError)
    requires Explains(table, text, error)
    ensures forall combo :: !Denotes(table, text, combo)
  {
    hide Explains, Denotes;
    forall combo ensures !Denotes(table, text, combo) {
      RejectedMeansNothing(table, text, error, combo);
    }
  }

  lemma AddModifier(mods: Mods, m: Modifier)
    requires !mods.Contains(m)
    ensures ModReadings(mods.Set(m)) == ModReadings(mods) + multiset{Modifies(m)}
  {
  }

  /** A rejected text names no combination at all. */
  lemma RejectedMeansNothing(table: KeyTable, text: string, error: ParseError, combo: KeyCombo)
    requires Explains(table, text, error)
    ensures !Denotes(table, text, combo)
  {
    hide Read, SplitPlus, ModReadings;
    if error.SecondTrigger? {
      var tokens := SplitPlus(text);
      var j, k :| 0 <= j < k < |tokens| && Read(table, tokens[j]).Triggers? && Read(table, tokens[k]).Triggers?;
      TwoOfThem(Readings(table, tokens), j, k);
    }
  }

  /** A text names at most one combination. */
  lemma DenotesAtMostOne(table: KeyTable, text: string, c1: KeyCombo, c2: KeyCombo)
    requires Denotes(table, text, c1) && Denotes(table, text, c2)
    ensures c1 == c2
  {
    var all := multiset(Readings(table, SplitPlus(text)));
    assert all[Triggers(c1.key)] >= 1;
    forall m: Modifier ensures c1.mods.Contains(m) <==> c2.mods.Contains(m) {
      assert all[Modifies(m)] == ModReadings(c1.mods)[Modifies(m)] == ModReadings(c2.mods)[Modifies(m)];
    }
    assert c1.mods.Contains(Ctrl) == c1.mods.ctrl && c1.mods.Contains(Alt) == c1.mods.alt;
    assert c1.mods.Contains(Shift) == c1.mods.shift && c1.mods.Contains(Super) == c1.mods.sup;
  }

  // ---- Order, padding, case and aliases --------------------------------------------------

  /** The text with these tokens between its plus signs. */
  function Join(tokens: seq<string>): string
    requires tokens != []
  {
    if |tokens| == 1 then tokens[0] else tokens[0] + "+" + Join(tokens[1..])
  }

  predicate PlusFree(tokens: seq<string>) {
    tokens != [] && forall token :: token in tokens ==> '+' !in token
  }

  lemma {:induction false} SplitAfterWord(word: string, rest: string)
    requires '+' !in word
    ensures SplitPlus(word + "+" + rest) == [word] + SplitPlus(rest)
  {
    var s := word + "+" + rest;
    if word == "" {
      assert s[1..] == rest;
    } else {
      assert s[1..] == word[1..] + "+" + rest;
      SplitAfterWord(word[1..], rest);
      assert [word[0]] + word[1..] == word;
    }
  }

  lemma {:induction false} SplitWord(word: string)
    requires '+' !in word
    ensures SplitPlus(word) == [word]
  {
    if word != "" {
      SplitWord(word[1..]);
      assert [word[0]] + word[1..] == word;
    }
  }

  lemma {:induction false} SplitJoined(tokens: seq<string>)
    requires PlusFree(tokens)
    ensures SplitPlus(Join(tokens)) == tokens
  {
    hide SplitPlus;
    assert tokens[0] in tokens;
    if |tokens| == 1 {
      SplitWord(tokens[0]);
    } else {
      assert forall token :: token in tokens[1..] ==> token in tokens;
      SplitJoined(tokens[1..]);
      SplitAfterWord(tokens[0], Join(tokens[1..]));
    }
  }

  /** Every text is a join: that of its tokens, which have no plus signs. */
  lemma {:induction false} JoinSplit(text: string)
    ensures PlusFree(SplitPlus(text)) && Join(SplitPlus(text)) == text
  {
    if text != "" {
      var rest := SplitPlus(text[1..]);
      JoinSplit(text[1..]);
      assert rest[0] in rest && forall token :: token in rest[1..] ==> token in rest;
      assert [text[0]] + text[1..] == text;
      if text[0] == '+' {
        assert ([""] + rest)[1..] == rest;
      } else {
        assert ([[text[0]] + rest[0]] + rest[1..])[1..] == rest[1..];
      }
    }
  }

  lemma ReadingsApart(table: KeyTable, tokens: seq<string>, i: nat)
    requires i < |tokens|
    ensures var others := tokens[..i] + tokens[i + 1..];
      multiset(tokens) == multiset{tokens[i]} + multiset(others)
      && multiset(Readings(table, tokens)) == multiset{Read(table, tokens[i])} + multiset(Readings(table, others))
  {
    hide Read;
    var all := Readings(table, tokens);
    assert tokens == tokens[..i] + [tokens[i]] + tokens[i + 1..];
    assert all == all[..i] + [all[i]] + all[i + 1..];
    assert Readings(table, tokens[..i] + tokens[i + 1..]) == all[..i] + all[i + 1..];
  }

  lemma SameWithoutOne<T>(xs: seq<T>, ys: seq<T>, i: nat)
    requires multiset(xs) == multiset(ys) && xs != [] && i < |ys| && ys[i] == xs[0]
    ensures multiset(xs[1..]) == multiset(ys[..i] + ys[i + 1..])
  {
    assert xs == [xs[0]] + xs[1..];
    assert multiset(xs[1..]) == multiset(xs) - multiset{xs[0]};
    assert ys == ys[..i] + [ys[i]] + ys[i + 1..];
    assert multiset(ys[..i] + ys[i + 1..]) == multiset(ys) - multiset{ys[i]};
  }

  lemma {:induction false} ReadingsPermute(table: KeyTable, xs: seq<string>, ys: seq<string>)
    requires multiset(xs) == multiset(ys)
    ensures multiset(Readings(table, xs)) == multiset(Readings(table, ys))
    decreases |xs|
  {
    hide Read, Readings;
    if xs == [] {
      assert |ys| == |multiset(ys)| == |multiset(xs)|;
    } else {
      assert xs[0] in multiset(ys);
      var i :| 0 <= i < |ys| && ys[i] == xs[0];
      SameWithoutOne(xs, ys, i);
      ReadingsPermute(table, xs[1..], ys[..i] + ys[i + 1..]);
      ReadingsApart(table, ys, i);
      ReadingsApart(table, xs, 0);
      assert xs[..0] + xs[1..] == xs[1..];
    }
  }

  /** The order of the tokens does not matter: a text and its permutations name the same combinations. */
  lemma OrderDoesNotMatter(table: KeyTable, xs: seq<string>, ys: seq<string>, combo: KeyCombo)
    requires PlusFree(xs) && multiset(xs) == multiset(ys)
    ensures PlusFree(ys) && (Denotes(table, Join(xs), combo) <==> Denotes(table, Join(ys), combo))
  {
    assert forall token :: token in ys <==> token in multiset(ys);
    assert xs[0] in multiset(ys);
    SplitJoined(xs);
    SplitJoined(ys);
    hide Join, SplitPlus, Read, ModReadings;
    ReadingsPermute(table, xs, ys);
  }

  /** The parser accepts permuted texts alike, and gives the same combination. */
  method ParsePermuted(table: KeyTable, xs: seq<string>, ys: seq<string>)
    returns (first: Result<KeyCombo, ParseError>, second: Result<KeyCombo, ParseError>)
    requires PlusFree(xs) && multiset(xs) == multiset(ys)
    ensures first.Success? <==> second.Success?
    ensures first.Success? ==> second == first
  {
    hide Join, Denotes;
    OrderDoesNotMatter(table, xs, ys, KeyCombo(NO_MODS, 0));
    first := FromStr(table, Join(xs));
    second := FromStr(table, Join(ys));
    if first.Success? {
      OrderDoesNotMatter(table, xs, ys, first.value);
    }
    if second.Success? {
      OrderDoesNotMatter(table, xs, ys, second.value);
    }
    if first.Success? && second.Success? {
      DenotesAtMostOne(table, Join(ys), first.value, second.value);
    }
  }

  lemma PlainWordReads(table: KeyTable, word: string, m: Modifier)
    requires word != "" && ParseModifier(word) == Some(m)
    requires forall c :: c in word ==> !IsSpace(c) && LowerChar(c) == c
    ensures Read(table, word) == Modifies(m)
  {
    hide ParseModifier, IsSpace, LowerChar;
    assert word[0] in word && word[|word| - 1] in word;
    assert TrimEnd(TrimStart(word)) == word;
    assert Lower(word) == word by {
      forall i | 0 <= i < |word| ensures LowerChar(word[i]) == word[i] { assert word[i] in word; }
    }
  }

  /** `ctrl` and `control`, and `super`, `meta` and `win`, are the same modifier, in any case and padding. */
  lemma AliasesAreModifiers(table: KeyTable)
    ensures Read(table, "control") == Read(table, "ctrl") == Modifies(Ctrl)
    ensures Read(table, "meta") == Read(table, "win") == Read(table, "super") == Modifies(Super)
  {
    hide Read;
    PlainWordReads(table, "control", Ctrl);
    PlainWordReads(table, "ctrl", Ctrl);
    PlainWordReads(table, "meta", Super);
    PlainWordReads(table, "win", Super);
    PlainWordReads(table, "super", Super);
  }

  /** Writing a token another way that reads alike, such as an alias, in capitals or padded, changes nothing. */
  lemma RespellingDoesNotMatter(table: KeyTable, tokens: seq<string>, i: nat, other: string, combo: KeyCombo)
    requires PlusFree(tokens) && i < |tokens| && '+' !in other && Read(table, other) == Read(table, tokens[i])
    ensures Denotes(table, Join(tokens), combo) <==> Denotes(table, Join(tokens[i := other]), combo)
  {
    SplitJoined(tokens);
    SplitJoined(tokens[i := other]);
    hide Join, SplitPlus, Read, ModReadings;
    assert Readings(table, tokens[i := other]) == Readings(table, tokens);
  }

  lemma {:induction false} TrimStartSpaces(pad: string, s: string)
    requires forall c :: c in pad ==> IsSpace(c)
    ensures TrimStart(pad + s) == TrimStart(s)
  {
    if pad == "" {
      assert pad + s == s;
    } else {
      assert (pad + s)[1..] == pad[1..] + s;
      TrimStartSpaces(pad[1..], s);
    }
  }

  lemma {:induction false} TrimEndSpaces(s: string, pad: string)
    requires forall c :: c in pad ==> IsSpace(c)
    ensures TrimEnd(s + pad) == TrimEnd(s)
  {
    if pad == "" {
      assert s + pad == s;
    } else {
      var n := |pad| - 1;
      assert (s + pad)[..|s + pad| - 1] == s + pad[..n];
      TrimEndSpaces(s, pad[..n]);
    }
  }

  /** Trimming from the left passes over everything only when everything is white space. */
  lemma {:induction false} TrimStartKeepsTail(s: string, pad: string)
    requires forall c :: c in pad ==> IsSpace(c)
    ensures TrimEnd(TrimStart(s + pad)) == TrimEnd(TrimStart(s))
  {
    if s == "" {
      assert s + pad == pad + "";
      TrimStartSpaces(pad, "");
    } else if IsSpace(s[0]) {
      assert (s + pad)[1..] == s[1..] + pad;
      TrimStartKeepsTail(s[1..], pad);
    } else {
      TrimEndSpaces(s, pad);
    }
  }

  lemma SpaceCharsHaveNoCase(c: char)
    ensures IsSpace(LowerChar(c)) == IsSpace(c) && IsSpace(UpperChar(c)) == IsSpace(c)
    ensures LowerChar(UpperChar(c)) == LowerChar(c) == LowerChar(LowerChar(c))
  {
  }

  lemma {:induction false} TrimStartUpper(s: string)
    ensures TrimStart(Upper(s)) == Upper(TrimStart(s))
  {
    if s != "" {
      SpaceCharsHaveNoCase(s[0]);
      assert Upper(s)[1..] == Upper(s[1..]);
      TrimStartUpper(s[1..]);
    }
  }

  lemma {:induction false} TrimEndUpper(s: string)
    ensures TrimEnd(Upper(s)) == Upper(TrimEnd(s))
  {
    if s != "" {
      var n := |s| - 1;
      SpaceCharsHaveNoCase(s[n]);
      assert Upper(s)[..n] == Upper(s[..n]);
      TrimEndUpper(s[..n]);
    }
  }

  /** Padding a token with white space, or typing it in capitals, does not change how it reads. */
  lemma PaddingAndCaseAreIgnored(table: KeyTable, before: string, token: string, after: string)
    requires forall c :: c in before || c in after ==> IsSpace(c)
    ensures Read(table, before + token + after) == Read(table, token)
    ensures Read(table, Upper(token)) == Read(table, token)
  {
    TrimStartKeepsTail(before + token, after);
    TrimStartSpaces(before, token);
    var t := TrimEnd(TrimStart(token));
    TrimStartUpper(token);
    TrimEndUpper(TrimStart(token));
    forall i | 0 <= i < |t| ensures LowerChar(UpperChar(t[i])) == LowerChar(t[i]) {
      SpaceCharsHaveNoCase(t[i]);
    }
    assert Lower(Upper(t)) == Lower(t);
  }

  // ---- Printing and reading back ---------------------------------------------------------

  function PrintMods(mods: Mods, ms: seq<Modifier>): string {
    if ms == [] then ""
    else (if mods.Contains(ms[0]) then ModifierName(ms[0]) + "+" else "") + PrintMods(mods, ms[1..])
  }

  function Print(table: KeyTable, combo: KeyCombo): string {
    PrintMods(combo.mods, ALL_MODIFIERS) + KeyName(table, combo.key)
  }

  method Display(table: KeyTable, combo: KeyCombo) returns (text: string)
    ensures text == Print(table, combo)
  {
    hide KeyName, ModifierName;
    text := "";
    for i := 0 to |ALL_MODIFIERS|
      invariant text + PrintMods(combo.mods, ALL_MODIFIERS[i..]) == PrintMods(combo.mods, ALL_MODIFIERS)
    {
      var m := ALL_MODIFIERS[i];
      assert ALL_MODIFIERS[i..][1..] == ALL_MODIFIERS[i + 1..];
      ghost var rest := PrintMods(combo.mods, ALL_MODIFIERS[i + 1..]);
      if combo.mods.Contains(m) {
        assert text + (ModifierName(m) + "+" + rest) == (text + ModifierName(m) + "+") + rest;
        text := text + ModifierName(m) + "+";
      } else {
        assert "" + rest == rest;
      }
    }
    text := text + KeyName(table, combo.key);
  }

  lemma ModifierNameReadsBack(table: KeyTable, m: Modifier)
    ensures '+' !in ModifierName(m) && Read(table, ModifierName(m)) == Modifies(m)
  {
    var name := ModifierName(m);
    assert Lower(name) == name;
  }

  /** The name of a parseable trigger reads back as that trigger. */
  lemma KeyNameReadsBack(table: KeyTable, key: KeyCode, token: string)
    requires Sound(table) && Read(table, token) == Triggers(key)
    ensures '+' !in KeyName(table, key) && Read(table, KeyName(table, key)) == Triggers(key)
  {
    assert PREFIX <= PREFIX + Upper(Normalize(token));
    var name := table.debugName(key);
    var bare := name[|PREFIX|..];
    var lower := Lower(bare);
    forall i | 0 <= i < |bare|
      ensures bare[i] in bare && lower[i] != '+' && !IsSpace(lower[i])
      ensures LowerChar(lower[i]) == lower[i] && UpperChar(lower[i]) == bare[i]
    {
      SpaceCharsHaveNoCase(bare[i]);
    }
    assert TrimEnd(TrimStart(lower)) == lower;
    assert Lower(lower) == lower && Upper(lower) == bare;
    assert PREFIX + bare == name;
  }

  /** The readings of the listed modifiers that `mods` contains. */
  function ListedReadings(mods: Mods, ms: seq<Modifier>): multiset<Reading> {
    if ms == [] then multiset{} else Once(mods, ms[0]) + ListedReadings(mods, ms[1..])
  }

  lemma ReadAfterWord(table: KeyTable, m: Modifier, rest: string)
    ensures multiset(Readings(table, SplitPlus(ModifierName(m) + "+" + rest)))
         == multiset{Modifies(m)} + multiset(Readings(table, SplitPlus(rest)))
  {
    hide Read, SplitPlus, ModifierName;
    var word := ModifierName(m);
    ModifierNameReadsBack(table, m);
    SplitAfterWord(word, rest);
    assert Readings(table, [word] + SplitPlus(rest)) == [Read(table, word)] + Readings(table, SplitPlus(rest));
  }

  lemma PrintModsStep(mods: Mods, ms: seq<Modifier>, tail: string)
    requires ms != []
    ensures var rest := PrintMods(mods, ms[1..]) + tail;
            PrintMods(mods, ms) + tail == if mods.Contains(ms[0]) then ModifierName(ms[0]) + "+" + rest else rest
  {
    hide ModifierName;
    var printed := PrintMods(mods, ms[1..]);
    if mods.Contains(ms[0]) {
      Associate(ModifierName(ms[0]) + "+", printed, tail);
    } else {
      Associate("", printed, tail);
      assert "" + (printed + tail) == printed + tail;
    }
  }

  lemma Associate(a: string, b: string, c: string)
    ensures (a + b) + c == a + (b + c)
  {
  }

  /** Prefixing printed modifiers adds exactly their readings. */
  lemma {:induction false} PrintedModsReadBack(table: KeyTable, mods: Mods, ms: seq<Modifier>, tail: string)
    ensures multiset(Readings(table, SplitPlus(PrintMods(mods, ms) + tail)))
         == ListedReadings(mods, ms) + multiset(Readings(table, SplitPlus(tail)))
  {
    hide Read, SplitPlus, ModifierName, Readings;
    if ms == [] {
      assert PrintMods(mods, ms) + tail == tail;
    } else {
      var rest := PrintMods(mods, ms[1..]) + tail;
      PrintedModsReadBack(table, mods, ms[1..], tail);
      PrintModsStep(mods, ms, tail);
      if mods.Contains(ms[0]) {
        ReadAfterWord(table, ms[0], rest);
      }
    }
  }

  lemma {:induction false} ListedOnce(mods: Mods, ms: seq<Modifier>, x: Reading)
    requires forall i, j :: 0 <= i < j < |ms| ==> ms[i] != ms[j]
    ensures ListedReadings(mods, ms)[x] == if x.Modifies? && x.m in ms && mods.Contains(x.m) then 1 else 0
  {
    hide Mods.Contains;
    if ms != [] {
      ListedOnce(mods, ms[1..], x);
      assert x.Modifies? ==> (x.m in ms <==> x.m == ms[0] || x.m in ms[1..]);
    }
  }

  lemma EveryModifierIsListed(m: Modifier)
    ensures m in ALL_MODIFIERS
  {
    assert ALL_MODIFIERS[0] == Ctrl && ALL_MODIFIERS[1] == Alt;
    assert ALL_MODIFIERS[2] == Shift && ALL_MODIFIERS[3] == Super;
  }

  lemma AllModifiersListed(mods: Mods)
    ensures ListedReadings(mods, ALL_MODIFIERS) == ModReadings(mods)
  {
    hide ListedReadings, ModReadings;
    forall x: Reading ensures ListedReadings(mods, ALL_MODIFIERS)[x] == ModReadings(mods)[x] {
      ListedOnce(mods, ALL_MODIFIERS, x);
      if x.Modifies? {
        EveryModifierIsListed(x.m);
      }
    }
  }

  /** Some token is read as this trigger. */
  ghost predicate Nameable(table: KeyTable, key: KeyCode) {
    exists token: string :: Read(table, token) == Triggers(key)
  }

  lemma NamedKeyIsNameable(table: KeyTable, text: string, combo: KeyCombo)
    requires Denotes(table, text, combo)
    ensures Nameable(table, combo.key)
  {
    hide Read, SplitPlus, ModReadings;
    var tokens := SplitPlus(text);
    assert Triggers(combo.key) in multiset(Readings(table, tokens));
    var i :| 0 <= i < |tokens| && Readings(table, tokens)[i] == Triggers(combo.key);
  }

  /**
   The canonical spelling of a combination names it if and only if its key can be named at all: for
   every set of modifiers, and whether or not anybody wrote the combination before.
  */
  lemma PrintedFormNamesTheCombo(table: KeyTable, combo: KeyCombo)
    requires Sound(table)
    ensures Denotes(table, Print(table, combo), combo) <==> Nameable(table, combo.key)
  {
    hide Read, SplitPlus, KeyName, ModReadings;
    if Nameable(table, combo.key) {
      var token :| Read(table, token) == Triggers(combo.key);
      KeyNameReadsBack(table, combo.key, token);
      var name := KeyName(table, combo.key);
      SplitWord(name);
      PrintedModsReadBack(table, combo.mods, ALL_MODIFIERS, name);
      assert Readings(table, [name]) == [Triggers(combo.key)];
      AllModifiersListed(combo.mods);
    } else if Denotes(table, Print(table, combo), combo) {
      NamedKeyIsNameable(table, Print(table, combo), combo);
    }
  }

  /** Print and parse: the combination comes back if and only if its key can be named. */
  method PrintParse(table: KeyTable, combo: KeyCombo) returns (back: Result<KeyCombo, ParseError>)
    requires Sound(table)
    ensures back == Success(combo) <==> Nameable(table, combo.key)
  {
    hide Denotes, Sound, Nameable, Print, Explains;
    var printed := Display(table, combo);
    back := FromStr(table, printed);
    PrintedFormNamesTheCombo(table, combo);
    if back.Success? && Denotes(table, printed, combo) {
      DenotesAtMostOne(table, printed, combo, back.value);
    }
  }

  /** Parse, print, parse again: the printed form is accepted and gives the same combination. */
  method ParsePrintParse(table: KeyTable, text: string)
    returns (first: Result<KeyCombo, ParseError>, second: Result<KeyCombo, ParseError>)
    requires Sound(table)
    ensures first.Success? ==> second == first
  {
    first := FromStr(table, text);
    second := first;
    if first.Success? {
      NamedKeyIsNameable(table, text, first.value);
      second := PrintParse(table, first.value);
    }
  }
}
