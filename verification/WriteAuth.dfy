/** The level that a write of a feature's state needs: the feature's own, its tabs' and its keys'. */
module WriteAuth {
  import opened Options

  type Level = nat

  /** named: the tab has a key. */
  datatype Tab = Tab(named: bool, key: string, auth: Level, write: Option<Level>)

  /** A field of a form: its names in order; the first that is not "o" is its value's. */
  type Field = seq<string>

  /** A feature's form: the fields under each tab's key; or none could be had. */
  datatype Form = Form(fields: map<string, seq<Field>>) | NoForm

  datatype KeyLevel = KeyLevel(key: string, level: Level)

  /** A member of a body; inner: the names in its object. */
  datatype Member = Value(key: string) | Envelope(key: string, inner: seq<string>)

  datatype Rules = Rules(keys: seq<KeyLevel>, tabs: seq<KeyLevel>, feature: Level, floor: Level, elevated: bool)

  function Max(a: Level, b: Level): Level {
    if a >= b then a else b
  }

  function TabLevel(floor: Level, t: Tab): Level {
    Max(floor, if t.write.Some? then t.write.value else t.auth)
  }

  function TabLevels(tabs: seq<Tab>, floor: Level): seq<KeyLevel> {
    if tabs == [] then []
    else
      var t := tabs[|tabs| - 1];
      TabLevels(tabs[..|tabs| - 1], floor) + if t.named then [KeyLevel(t.key, TabLevel(floor, t))] else []
  }

  /** The place of the first entry of that key; -1: none. */
  function Find(keys: seq<KeyLevel>, key: string): (i: int)
    ensures -1 <= i < |keys|
    ensures i >= 0 ==> keys[i].key == key
    ensures i < 0 ==> forall e :: e in keys ==> e.key != key
  {
    if keys == [] then -1
    else if keys[0].key == key then 0
    else
      var i := Find(keys[1..], key);
      if i < 0 then -1 else i + 1
  }

  /** A key of a tab of that level. */
  function Raise(keys: seq<KeyLevel>, key: string, level: Level): seq<KeyLevel> {
    var i := Find(keys, key);
    if i >= 0 then keys[i := KeyLevel(key, Max(keys[i].level, level))] else keys + [KeyLevel(key, level)]
  }

  function ValueKeys(f: Field): (k: seq<string>)
    ensures |k| <= 1 && forall x :: x in k ==> x in f && x != "o"
  {
    if f == [] then [] else if f[0] == "o" then ValueKeys(f[1..]) else [f[0]]
  }

  function AddFields(keys: seq<KeyLevel>, fields: seq<Field>, level: Level): seq<KeyLevel> {
    if fields == [] then keys
    else
      var k := ValueKeys(fields[|fields| - 1]);
      var done := AddFields(keys, fields[..|fields| - 1], level);
      if k == [] then done else Raise(done, k[0], level)
  }

  function FieldsOf(form: Form, t: Tab): seq<Field> {
    if form.Form? && t.named && t.key in form.fields then form.fields[t.key] else []
  }

  function KeyLevels(form: Form, tabs: seq<Tab>, floor: Level): seq<KeyLevel> {
    if tabs == [] then []
    else
      var t := tabs[|tabs| - 1];
      AddFields(KeyLevels(form, tabs[..|tabs| - 1], floor), FieldsOf(form, t), TabLevel(floor, t))
  }

  function Highest(keys: seq<KeyLevel>, least: Level): Level {
    if keys == [] then least else Max(Highest(keys[..|keys| - 1], least), keys[|keys| - 1].level)
  }

  /** build */
  function Built(form: Form, tabs: seq<Tab>, feature: Level, featureWrite: Level): Rules {
    var floor := Max(feature, featureWrite);
    var levels := TabLevels(tabs, floor);
    var top := Highest(levels, floor);
    if form.NoForm? then Rules([], levels, feature, top, feature < top)
    else Rules(KeyLevels(form, tabs, floor), levels, feature, floor, feature < top)
  }

  function LevelOfKey(r: Rules, key: string): Level {
    var i := Find(r.keys, key);
    if i >= 0 then r.keys[i].level else r.floor
  }

  function NeedOf(r: Rules, m: Member): Level {
    if m.Envelope? && Find(r.tabs, m.key) >= 0
    then Max(r.tabs[Find(r.tabs, m.key)].level, NeedOfAll(r, m.inner))
    else LevelOfKey(r, m.key)
  }

  function NeedOfAll(r: Rules, keys: seq<string>): Level {
    if keys == [] then 0 else Max(NeedOfAll(r, keys[..|keys| - 1]), LevelOfKey(r, keys[|keys| - 1]))
  }

  /** required */
  function Required(r: Rules, body: seq<Member>): Level {
    if body == [] then r.floor else Max(Required(r, body[..|body| - 1]), NeedOf(r, body[|body| - 1]))
  }

  // ---- the methods

  method BuildRules(form: Form, tabs: seq<Tab>, feature: Level, featureWrite: Level) returns (r: Rules)
    ensures r == Built(form, tabs, feature, featureWrite)
  {
    var floor := Max(feature, featureWrite);
    var keys, levels, elevated := [], [], feature < floor;
    assert tabs[..0] == [];
    hide KeyLevels, TabLevels, Highest, TabLevel, FieldsOf;
    NoTabs(form, floor);
    var i := 0;
    while i < |tabs|
      invariant 0 <= i <= |tabs|
      invariant levels == TabLevels(tabs[..i], floor) && keys == KeyLevels(form, tabs[..i], floor)
      invariant elevated == (feature < Highest(levels, floor))
    {
      var t := tabs[i];
      OneMoreTab(form, tabs[..i], t, floor);
      assert tabs[..i + 1] == tabs[..i] + [t];
      if t.named {
        var level := TabLevel(floor, t);
        levels := levels + [KeyLevel(t.key, level)];
        if feature < level { elevated := true; }
        keys := ScanFields(keys, FieldsOf(form, t), level);
      }
      i := i + 1;
    }
    assert tabs[..i] == tabs;
    NoKeysWithoutForm(form, tabs, floor);
    if form.NoForm? {
      floor := RaiseFloor(levels, floor);
      elevated := feature < floor;
    }
    r := Rules(keys, levels, feature, floor, elevated);
  }

  lemma NoTabs(form: Form, floor: Level)
    ensures TabLevels([], floor) == [] && KeyLevels(form, [], floor) == [] && Highest([], floor) == floor
  {
  }

  lemma OneMoreTab(form: Form, tabs: seq<Tab>, t: Tab, floor: Level)
    ensures var more := tabs + [t];
      && TabLevels(more, floor) ==
           TabLevels(tabs, floor) + (if t.named then [KeyLevel(t.key, TabLevel(floor, t))] else [])
      && KeyLevels(form, more, floor) == AddFields(KeyLevels(form, tabs, floor), FieldsOf(form, t), TabLevel(floor, t))
      && (t.named ==>
            Highest(TabLevels(more, floor), floor) == Max(Highest(TabLevels(tabs, floor), floor), TabLevel(floor, t)))
      && (!t.named ==> FieldsOf(form, t) == [])
  {
    assert (tabs + [t])[..|tabs|] == tabs;
    hide TabLevel;
    if t.named {
      var levels := TabLevels(tabs, floor) + [KeyLevel(t.key, TabLevel(floor, t))];
      assert levels[..|levels| - 1] == TabLevels(tabs, floor);
    }
  }

  lemma {:induction false} NoKeysWithoutForm(form: Form, tabs: seq<Tab>, floor: Level)
    ensures form.NoForm? ==> KeyLevels(form, tabs, floor) == []
  {
    if tabs != [] { NoKeysWithoutForm(form, tabs[..|tabs| - 1], floor); }
  }

  method ScanFields(keys: seq<KeyLevel>, fields: seq<Field>, level: Level) returns (r: seq<KeyLevel>)
    ensures r == AddFields(keys, fields, level)
  {
    r := keys;
    var j := 0;
    while j < |fields|
      invariant 0 <= j <= |fields| && r == AddFields(keys, fields[..j], level)
    {
      assert fields[..j + 1][..j] == fields[..j];
      var k := ValueKeys(fields[j]);
      if k != [] { r := Raise(r, k[0], level); }
      j := j + 1;
    }
    assert fields[..j] == fields;
  }

  method RaiseFloor(levels: seq<KeyLevel>, least: Level) returns (floor: Level)
    ensures floor == Highest(levels, least)
  {
    floor := least;
    var i := 0;
    while i < |levels|
      invariant 0 <= i <= |levels| && floor == Highest(levels[..i], least)
    {
      assert levels[..i + 1][..i] == levels[..i];
      floor := Max(floor, levels[i].level);
      i := i + 1;
    }
    assert levels[..i] == levels;
  }

  method Require(r: Rules, body: seq<Member>) returns (need: Level)
    ensures need == Required(r, body)
  {
    need := r.floor;
    var i := 0;
    while i < |body|
      invariant 0 <= i <= |body| && need == Required(r, body[..i])
    {
      assert body[..i + 1][..i] == body[..i];
      need := Max(need, NeedOf(r, body[i]));
      i := i + 1;
    }
    assert body[..i] == body;
  }

  // ---- what the levels mean

  lemma {:induction false} HighestIff(keys: seq<KeyLevel>, least: Level, top: Level)
    ensures Highest(keys, least) <= top <==> least <= top && forall e :: e in keys ==> e.level <= top
  {
    if keys != [] {
      HighestIff(keys[..|keys| - 1], least, top);
      assert keys == keys[..|keys| - 1] + [keys[|keys| - 1]];
    }
  }

  lemma {:induction false} RaiseIs(keys: seq<KeyLevel>, key: string, level: Level, x: string)
    ensures Find(Raise(keys, key, level), x) >= 0 <==> x == key || Find(keys, x) >= 0
    ensures x != key && Find(keys, x) >= 0 ==>
      Raise(keys, key, level)[Find(Raise(keys, key, level), x)] == keys[Find(keys, x)]
    ensures x == key ==>
      Raise(keys, key, level)[Find(Raise(keys, key, level), x)].level ==
      (if Find(keys, x) >= 0 then Max(keys[Find(keys, x)].level, level) else level)
  {
    if keys != [] && keys[0].key != key {
      RaiseIs(keys[1..], key, level, x);
      assert Raise(keys, key, level)[1..] == Raise(keys[1..], key, level);
    }
  }

  lemma {:induction false} RequiredByNeed(r: Rules, body: seq<Member>, have: Level)
    ensures Required(r, body) <= have <==> r.floor <= have && forall m :: m in body ==> NeedOf(r, m) <= have
  {
    if body != [] {
      RequiredByNeed(r, body[..|body| - 1], have);
      assert body == body[..|body| - 1] + [body[|body| - 1]];
    }
  }

  /** The settings envelope of a tab. */
  predicate IsTab(r: Rules, m: Member) {
    m.Envelope? && Find(r.tabs, m.key) >= 0
  }

  /** A member writes the keys within a tab's envelope, else its own. */
  predicate Touches(r: Rules, m: Member, k: string) {
    if IsTab(r, m) then k in m.inner else k == m.key
  }

  /** A level suffices exactly if it covers the floor, every tab whose envelope is written and every key
      written, in an envelope or not. */
  lemma RequiredIff(r: Rules, body: seq<Member>, have: Level)
    ensures Required(r, body) <= have <==>
      && r.floor <= have
      && (forall m :: m in body && IsTab(r, m) ==> r.tabs[Find(r.tabs, m.key)].level <= have)
      && (forall m, k :: m in body && Touches(r, m, k) ==> LevelOfKey(r, k) <= have)
  {
    RequiredByNeed(r, body, have);
    forall m | m in body
      ensures NeedOf(r, m) <= have <==>
        && (IsTab(r, m) ==> r.tabs[Find(r.tabs, m.key)].level <= have)
        && (forall k :: Touches(r, m, k) ==> LevelOfKey(r, k) <= have)
    {
      if IsTab(r, m) {
        NeedOfAllIff(r, m.inner, have);
      } else {
        assert Touches(r, m, m.key);
      }
    }
  }

  lemma {:induction false} NeedOfAllIff(r: Rules, keys: seq<string>, have: Level)
    ensures NeedOfAll(r, keys) <= have <==> forall k :: k in keys ==> LevelOfKey(r, k) <= have
  {
    if keys != [] {
      NeedOfAllIff(r, keys[..|keys| - 1], have);
      assert keys == keys[..|keys| - 1] + [keys[|keys| - 1]];
    }
  }

  /** A body that touches more needs no less. */
  lemma RequiredGrows(r: Rules, a: seq<Member>, b: seq<Member>)
    requires forall m :: m in a ==> m in b
    ensures Required(r, a) <= Required(r, b)
  {
    RequiredByNeed(r, a, Required(r, b));
    RequiredByNeed(r, b, Required(r, b));
  }

  /** The fields under the tab's key, if there is a form and it has them. */
  lemma FieldsOfIs(form: Form, t: Tab, f: Field)
    ensures f in FieldsOf(form, t) <==> form.Form? && t.named && t.key in form.fields && f in form.fields[t.key]
  {
  }

  /** A tab asks for the floor, and for its own write level if it has one, else for the level it is shown at. */
  lemma TabLevelIs(floor: Level, t: Tab, have: Level)
    ensures TabLevel(floor, t) <= have <==>
      floor <= have && match t.write case Some(w) => w <= have case None => t.auth <= have
  {
  }

  /** Whether the key is known, and if so at most at that level. */
  predicate AtMost(keys: seq<KeyLevel>, k: string, top: Level) {
    Find(keys, k) >= 0 && keys[Find(keys, k)].level <= top
  }

  predicate InFields(fields: seq<Field>, k: string) {
    exists i :: 0 <= i < |fields| && k in ValueKeys(fields[i])
  }

  lemma {:induction false} AddFieldsIs(keys: seq<KeyLevel>, fields: seq<Field>, level: Level, k: string, top: Level)
    ensures var r := AddFields(keys, fields, level);
      && (Find(r, k) >= 0 <==> Find(keys, k) >= 0 || InFields(fields, k))
      && (AtMost(r, k, top) <==>
            && (Find(keys, k) >= 0 || InFields(fields, k))
            && (Find(keys, k) >= 0 ==> AtMost(keys, k, top)) && (InFields(fields, k) ==> level <= top))
  {
    hide ValueKeys, Raise, Find;
    if fields == [] {
      assert !InFields(fields, k);
    } else {
      var n := |fields| - 1;
      var done, v := AddFields(keys, fields[..n], level), ValueKeys(fields[n]);
      AddFieldsIs(keys, fields[..n], level, k, top);
      InFieldsLast(fields, k);
      hide InFields;
      if v != [] { RaiseIs(done, v[0], level, k); }
    }
  }

  lemma InFieldsLast(fields: seq<Field>, k: string)
    requires fields != []
    ensures InFields(fields, k) <==> InFields(fields[..|fields| - 1], k) || k in ValueKeys(fields[|fields| - 1])
  {
    hide ValueKeys;
    assert forall i :: 0 <= i < |fields| - 1 ==> fields[i] == fields[..|fields| - 1][i];
  }

  /** A key is known if some tab's form has it, and takes the strictest level of these tabs. */
  lemma {:induction false} StrictestTab(form: Form, tabs: seq<Tab>, floor: Level, k: string, top: Level)
    ensures var keys := KeyLevels(form, tabs, floor);
      && (Find(keys, k) >= 0 <==> exists t :: t in tabs && InFields(FieldsOf(form, t), k))
      && (AtMost(keys, k, top) <==>
            && (exists t :: t in tabs && InFields(FieldsOf(form, t), k))
            && forall t :: t in tabs && InFields(FieldsOf(form, t), k) ==> TabLevel(floor, t) <= top)
  {
    if tabs != [] {
      var n := |tabs| - 1;
      StrictestTab(form, tabs[..n], floor, k, top);
      AddFieldsIs(KeyLevels(form, tabs[..n], floor), FieldsOf(form, tabs[n]), TabLevel(floor, tabs[n]), k, top);
      assert forall t :: t in tabs <==> t in tabs[..n] || t == tabs[n] by { assert tabs == tabs[..n] + [tabs[n]]; }
      hide InFields, AddFields, TabLevel, FieldsOf, Find;
    }
  }

  /** With a form, a key asks for the floor and for the level of every tab that has it. */
  lemma KeyNeedsIff(form: Form, tabs: seq<Tab>, feature: Level, featureWrite: Level, k: string, have: Level)
    requires form.Form?
    ensures var floor := Max(feature, featureWrite);
      floor <= have ==>
        (LevelOfKey(Built(form, tabs, feature, featureWrite), k) <= have <==>
          forall t :: t in tabs && InFields(FieldsOf(form, t), k) ==> TabLevel(floor, t) <= have)
  {
    StrictestTab(form, tabs, Max(feature, featureWrite), k, have);
    hide InFields, FieldsOf, TabLevel, KeyLevels, TabLevels;
  }

  /** So a level suffices for a body exactly if it covers the floor, the tab of every envelope in it, and for each
      key that it writes every tab whose form has that key. */
  lemma BodyAllowedIff(form: Form, tabs: seq<Tab>, feature: Level, featureWrite: Level, body: seq<Member>, have: Level)
    requires form.Form?
    ensures var r, floor := Built(form, tabs, feature, featureWrite), Max(feature, featureWrite);
      Required(r, body) <= have <==>
        && floor <= have
        && (forall m :: m in body && IsTab(r, m) ==> r.tabs[Find(r.tabs, m.key)].level <= have)
        && (forall m, k, t :: m in body && Touches(r, m, k) && t in tabs && InFields(FieldsOf(form, t), k) ==>
              TabLevel(floor, t) <= have)
  {
    var r, floor := Built(form, tabs, feature, featureWrite), Max(feature, featureWrite);
    assert r.floor == floor;
    hide *;
    RequiredIff(r, body, have);
    if floor <= have {
      forall k ensures LevelOfKey(r, k) <= have <==>
        forall t :: t in tabs && InFields(FieldsOf(form, t), k) ==> TabLevel(floor, t) <= have
      {
        KeyNeedsIff(form, tabs, feature, featureWrite, k, have);
      }
    }
  }

  /** All levels of the map are within `top`. */
  predicate Under(r: Rules, top: Level) {
    r.floor <= top && (forall e :: e in r.keys ==> e.level <= top) && (forall e :: e in r.tabs ==> e.level <= top)
  }

  lemma UnderNeeds(r: Rules, top: Level, body: seq<Member>)
    requires Under(r, top)
    ensures Required(r, body) <= top
  {
    forall m | m in body ensures NeedOf(r, m) <= top {
      if m.Envelope? { NeedOfAllIff(r, m.inner, top); }
    }
    RequiredIff(r, body, top);
  }

  lemma {:induction false} AddFieldsUnder(keys: seq<KeyLevel>, fields: seq<Field>, level: Level, top: Level)
    requires level <= top && forall e :: e in keys ==> e.level <= top
    ensures forall e :: e in AddFields(keys, fields, level) ==> e.level <= top
  {
    if fields != [] { AddFieldsUnder(keys, fields[..|fields| - 1], level, top); }
  }

  lemma {:induction false} KeysUnder(form: Form, tabs: seq<Tab>, floor: Level, top: Level)
    requires Highest(TabLevels(tabs, floor), floor) <= top
    ensures forall e :: e in KeyLevels(form, tabs, floor) ==> e.level <= top
  {
    HighestIff(TabLevels(tabs, floor), floor, top);
    if tabs != [] {
      var t, most := tabs[|tabs| - 1], tabs[..|tabs| - 1];
      HighestIff(TabLevels(most, floor), floor, top);
      KeysUnder(form, most, floor, top);
      if t.named { AddFieldsUnder(KeyLevels(form, most, floor), FieldsOf(form, t), TabLevel(floor, t), top); }
    }
  }

  lemma BuiltUnder(form: Form, tabs: seq<Tab>, feature: Level, featureWrite: Level)
    ensures var floor := Max(feature, featureWrite);
      Under(Built(form, tabs, feature, featureWrite), Highest(TabLevels(tabs, floor), floor))
  {
    var floor := Max(feature, featureWrite);
    var top := Highest(TabLevels(tabs, floor), floor);
    HighestIff(TabLevels(tabs, floor), floor, top);
    KeysUnder(form, tabs, floor, top);
  }

  /** Not elevated: no body needs more than the feature's own level. */
  lemma PlainNeedsNoMore(form: Form, tabs: seq<Tab>, feature: Level, featureWrite: Level, body: seq<Member>)
    requires !Built(form, tabs, feature, featureWrite).elevated
    ensures Required(Built(form, tabs, feature, featureWrite), body) <= feature
  {
    BuiltUnder(form, tabs, feature, featureWrite);
    UnderNeeds(Built(form, tabs, feature, featureWrite), feature, body);
  }

  lemma {:induction false} TabListed(tabs: seq<Tab>, floor: Level, e: KeyLevel)
    ensures e in TabLevels(tabs, floor) <==>
      exists t :: t in tabs && t.named && e == KeyLevel(t.key, TabLevel(floor, t))
  {
    hide TabLevel;
    if tabs != [] {
      var most, last := tabs[..|tabs| - 1], tabs[|tabs| - 1];
      assert tabs == most + [last];
      TabListed(most, floor, e);
    }
  }

  /** Elevated: exactly if some body needs more than the feature's level, the tabs' keys being different. */
  lemma ElevatedIff(form: Form, tabs: seq<Tab>, feature: Level, featureWrite: Level)
    requires forall t, u :: t in tabs && u in tabs && t.named && u.named && t.key == u.key ==> t == u
    ensures var r := Built(form, tabs, feature, featureWrite);
      r.elevated <==> exists body :: Required(r, body) > feature
  {
    var r, floor := Built(form, tabs, feature, featureWrite), Max(feature, featureWrite);
    if r.elevated {
      HighestIff(r.tabs, floor, feature);
      if floor <= feature {
        var e :| e in r.tabs && e.level > feature;
        TabWritten(form, tabs, feature, featureWrite, e);
        assert Required(r, [Envelope(e.key, [])]) > feature;
      } else {
        FloorAsked(form, tabs, feature, featureWrite);
        assert Required(r, []) > feature;
      }
    } else {
      forall body ensures Required(r, body) <= feature {
        PlainNeedsNoMore(form, tabs, feature, featureWrite, body);
      }
    }
  }

  lemma FloorAsked(form: Form, tabs: seq<Tab>, feature: Level, featureWrite: Level)
    ensures Required(Built(form, tabs, feature, featureWrite), []) >= Max(feature, featureWrite)
  {
    var floor := Max(feature, featureWrite);
    HighestIff(TabLevels(tabs, floor), floor, Highest(TabLevels(tabs, floor), floor));
  }

  /** An envelope of a tab asks for that tab's level. */
  lemma TabWritten(form: Form, tabs: seq<Tab>, feature: Level, featureWrite: Level, e: KeyLevel)
    requires forall t, u :: t in tabs && u in tabs && t.named && u.named && t.key == u.key ==> t == u
    requires e in TabLevels(tabs, Max(feature, featureWrite))
    ensures Required(Built(form, tabs, feature, featureWrite), [Envelope(e.key, [])]) >= e.level
  {
    var r, m := Built(form, tabs, feature, featureWrite), Envelope(e.key, []);
    var floor := Max(feature, featureWrite);
    assert r.tabs == TabLevels(tabs, floor);
    var i := Find(r.tabs, e.key);
    TabListed(tabs, floor, e);
    TabListed(tabs, floor, r.tabs[i]);
    assert r.tabs[i] == e;
    assert IsTab(r, m) && m in [m];
    RequiredIff(r, [m], Required(r, [m]));
    hide Built, TabLevels, Find, Required;
  }

  /** Without its form a feature asks at least as much of every body as with any form. */
  lemma FailsClosed(form: Form, tabs: seq<Tab>, feature: Level, featureWrite: Level, body: seq<Member>)
    ensures Required(Built(form, tabs, feature, featureWrite), body)
      <= Required(Built(NoForm, tabs, feature, featureWrite), body)
  {
    var closed := Built(NoForm, tabs, feature, featureWrite);
    BuiltUnder(form, tabs, feature, featureWrite);
    UnderNeeds(Built(form, tabs, feature, featureWrite), closed.floor, body);
    RequiredByNeed(closed, body, Required(closed, body));
  }
}
