/** Secrets in what the web interface reads and writes: masked on the way out, dropped on the way in if still masked. */
module SecretFields {
  /** A number or a boolean is a Scalar. */
  datatype Json = Null | Text(text: string) | Scalar(value: int) | Arr(items: seq<Json>) | Obj(members: seq<Member>)

  datatype Member = Member(key: string, value: Json)

  const OPTIONS := "o"
  const SECRET := "secret;"

  predicate StartsWith(s: string, prefix: string) {
    |prefix| <= |s| && s[..|prefix|] == prefix
  }

  /** The place of a key, -1: not there. */
  function Find(ms: seq<Member>, key: string): (i: int)
    ensures -1 <= i < |ms|
    ensures i >= 0 ==> ms[i].key == key
  {
    if ms == [] then -1
    else if ms[0].key == key then 0
    else
      var i := Find(ms[1..], key);
      if i < 0 then -1 else i + 1
  }

  predicate Has(ms: seq<Member>, key: string) {
    Find(ms, key) >= 0
  }

  /** A field of a form whose options say that it is secret. */
  predicate IsSecret(ms: seq<Member>) {
    Has(ms, OPTIONS) && ms[Find(ms, OPTIONS)].value.Text? && StartsWith(ms[Find(ms, OPTIONS)].value.text, SECRET)
  }

  /** A field's value: its first member but the options; -1: none. */
  function ValueAt(ms: seq<Member>): (i: int)
    ensures -1 <= i < |ms|
  {
    if ms == [] then -1
    else if ms[0].key != OPTIONS then 0
    else
      var i := ValueAt(ms[1..]);
      if i < 0 then -1 else i + 1
  }

  predicate HasValue(v: Json) {
    !v.Null? && (v.Text? ==> v.text != "")
  }

  const MASK := "********"

  function Masked(v: Json): Json {
    Text(if HasValue(v) then MASK else "")
  }

  function WithValue(m: Member, v: Json): Member {
    m.(value := v)
  }

  /** maskForm, on an object. */
  function MaskForm(j: Json): Json
    requires j.Obj?
    decreases j, 1
  {
    var ms := j.members;
    if IsSecret(ms) then
      var i := ValueAt(ms);
      if i < 0 then j else Obj(ms[i := WithValue(ms[i], Masked(ms[i].value))])
    else Obj(seq(|ms|, i requires 0 <= i < |ms| => WithValue(ms[i], MaskChild(ms[i].value))))
  }

  function MaskChild(v: Json): Json {
    match v
    case Obj(_) => MaskForm(v)
    case Arr(items) =>
      Arr(seq(|items|, i requires 0 <= i < |items| => if items[i].Obj? then MaskForm(items[i]) else items[i]))
    case _ => v
  }

  /** Strings that differ, yet are both empty or both not. */
  predicate OtherSecret(v: Json, w: Json) {
    v.Text? && w.Text? && (v.text == "" <==> w.text == "")
  }

  /** The same form, but for the texts of its secrets. */
  ghost predicate SameButSecrets(a: Json, b: Json)
    decreases a, 1
  {
    && a.Obj? && b.Obj? && |a.members| == |b.members|
    && (forall i :: 0 <= i < |a.members| ==> a.members[i].key == b.members[i].key)
    && (if IsSecret(a.members)
        then forall i :: 0 <= i < |a.members| ==>
          a.members[i].value == b.members[i].value
          || (i == ValueAt(a.members) && OtherSecret(a.members[i].value, b.members[i].value))
        else forall i :: 0 <= i < |a.members| ==> SameChild(a.members[i].value, b.members[i].value))
  }

  ghost predicate SameChild(v: Json, w: Json)
    decreases v, 2
  {
    match v
    case Obj(_) => w.Obj? && SameButSecrets(v, w)
    case Arr(items) =>
      && w.Arr? && |w.items| == |items|
      && forall i :: 0 <= i < |items| ==>
        if items[i].Obj? then SameButSecrets(items[i], w.items[i]) else items[i] == w.items[i]
    case _ => v == w
  }

  lemma {:induction false} FindByKeys(a: seq<Member>, b: seq<Member>, key: string)
    requires |a| == |b| && forall i :: 0 <= i < |a| ==> a[i].key == b[i].key
    ensures Find(a, key) == Find(b, key) && ValueAt(a) == ValueAt(b)
  {
    if a != [] { FindByKeys(a[1..], b[1..], key); }
  }

  lemma {:induction false} ValueIsNotOptions(ms: seq<Member>)
    ensures ValueAt(ms) >= 0 ==> ms[ValueAt(ms)].key != OPTIONS
  {
    if ms != [] { ValueIsNotOptions(ms[1..]); }
  }

  lemma SameSecrecy(a: Json, b: Json)
    requires SameButSecrets(a, b)
    ensures IsSecret(a.members) == IsSecret(b.members) && ValueAt(a.members) == ValueAt(b.members)
  {
    FindByKeys(a.members, b.members, OPTIONS);
    ValueIsNotOptions(a.members);
  }

  /** A form's masked reading tells nothing of its secrets but which are set. */
  lemma {:induction false} FormTellsNothing(a: Json, b: Json)
    requires SameButSecrets(a, b)
    ensures MaskForm(a) == MaskForm(b)
    decreases a, 1
  {
    SameSecrecy(a, b);
    var p, q := a.members, b.members;
    if IsSecret(p) {
      var i := ValueAt(p);
      if i >= 0 {
        assert p[i := WithValue(p[i], Masked(p[i].value))] == q[i := WithValue(q[i], Masked(q[i].value))];
      } else {
        assert p == q;
      }
    } else {
      forall i | 0 <= i < |p| ensures MaskChild(p[i].value) == MaskChild(q[i].value) {
        ChildTellsNothing(p[i].value, q[i].value);
      }
      assert MaskForm(a).members == MaskForm(b).members;
    }
  }

  lemma {:induction false} ChildTellsNothing(v: Json, w: Json)
    requires SameChild(v, w)
    ensures MaskChild(v) == MaskChild(w)
    decreases v, 2
  {
    match v
    case Obj(_) => FormTellsNothing(v, w);
    case Arr(items) =>
      forall i | 0 <= i < |items| && items[i].Obj? ensures MaskForm(items[i]) == MaskForm(w.items[i]) {
        FormTellsNothing(items[i], w.items[i]);
      }
      assert MaskChild(v).items == MaskChild(w).items;
    case _ =>
  }

  // ---- flat states

  /** An object by its keys. */
  type Flat = map<string, Json>

  /** maskFlat */
  function MaskFlat(s: Flat, keys: seq<string>): Flat {
    map k | k in s :: if k in keys then Masked(s[k]) else s[k]
  }

  method MaskKeys(s: Flat, keys: seq<string>) returns (r: Flat)
    ensures r == MaskFlat(s, keys)
  {
    r := s;
    var i := 0;
    while i < |keys|
      invariant 0 <= i <= |keys| && r == MaskFlat(s, keys[..i])
    {
      assert forall k :: k in keys[..i + 1] <==> k in keys[..i] || k == keys[i];
      if keys[i] in r { r := r[keys[i] := Masked(r[keys[i]])]; }
      i := i + 1;
    }
    assert keys[..i] == keys;
  }

  /** The same state, but for the texts of its secrets. */
  ghost predicate SameFlatButSecrets(a: Flat, b: Flat, keys: seq<string>) {
    a.Keys == b.Keys && forall k :: k in a ==> a[k] == b[k] || (k in keys && OtherSecret(a[k], b[k]))
  }

  /** Two states have the same masked reading just when they differ in nothing but their secrets, and in
      these not in which are set. */
  lemma FlatTellsIff(a: Flat, b: Flat, keys: seq<string>)
    ensures MaskFlat(a, keys) == MaskFlat(b, keys) <==>
      a.Keys == b.Keys && forall k :: k in a ==> if k in keys then HasValue(a[k]) == HasValue(b[k]) else a[k] == b[k]
    ensures SameFlatButSecrets(a, b, keys) ==> MaskFlat(a, keys) == MaskFlat(b, keys)
  {
    var p, q := MaskFlat(a, keys), MaskFlat(b, keys);
    if p == q {
      assert a.Keys == p.Keys == q.Keys == b.Keys;
      forall k | k in a ensures if k in keys then HasValue(a[k]) == HasValue(b[k]) else a[k] == b[k] {
        assert p[k] == q[k];
      }
    }
  }

  /** Secrets that still carry the mask are dropped. */
  function StripIn(s: Flat, keys: seq<string>): Flat {
    map k | k in s && !(k in keys && s[k] == Text(MASK)) :: s[k]
  }

  method StripKeys(s: Flat, keys: seq<string>) returns (r: Flat)
    ensures r == StripIn(s, keys)
  {
    r := s;
    var i := 0;
    while i < |keys|
      invariant 0 <= i <= |keys| && r == StripIn(s, keys[..i])
    {
      assert forall k :: k in keys[..i + 1] <==> k in keys[..i] || k == keys[i];
      if keys[i] in r && r[keys[i]] == Text(MASK) { r := r - {keys[i]}; }
      i := i + 1;
    }
    assert keys[..i] == keys;
  }

  /** A partial updater: the members that came replace the stored ones. */
  function Update(stored: Flat, body: Flat): Flat {
    stored + body
  }

  /** The same inside an object. */
  function StripMembers(ms: seq<Member>, keys: seq<string>): seq<Member> {
    if ms == [] then []
    else
      var m := ms[|ms| - 1];
      StripMembers(ms[..|ms| - 1], keys) + if m.key in keys && m.value == Text(MASK) then [] else [m]
  }

  const SETTINGS := "settings"

  /** stripMasked: at the top and in the settings envelope. */
  function StripMasked(s: Flat, keys: seq<string>): Flat {
    var t := StripIn(s, keys);
    if SETTINGS in t && t[SETTINGS].Obj? then t[SETTINGS := Obj(StripMembers(t[SETTINGS].members, keys))] else t
  }

  lemma {:induction false} StrippedMembers(ms: seq<Member>, keys: seq<string>)
    ensures forall m :: m in StripMembers(ms, keys) <==> m in ms && !(m.key in keys && m.value == Text(MASK))
  {
    if ms != [] {
      StrippedMembers(ms[..|ms| - 1], keys);
      assert ms == ms[..|ms| - 1] + [ms[|ms| - 1]];
    }
  }

  // ---- a masked reading written back

  /** Each key once, as in a JSON object. */
  predicate Once(ms: seq<Member>) {
    forall i, j :: 0 <= i < j < |ms| ==> ms[i].key != ms[j].key
  }

  function ByKey(ms: seq<Member>): Flat
    requires Once(ms)
  {
    map i | 0 <= i < |ms| :: ms[i].key := ms[i].value
  }

  /** The members after the form's pass. */
  function FormPass(ms: seq<Member>): (p: seq<Member>)
    ensures |p| == |ms| && forall i :: 0 <= i < |ms| ==> p[i].key == ms[i].key
  {
    MaskForm(Obj(ms)).members
  }

  /** maskAll: both passes. */
  function MaskAll(ms: seq<Member>, keys: seq<string>): Flat
    requires Once(ms)
  {
    MaskFlat(ByKey(FormPass(ms)), keys)
  }

  predicate IsMasked(v: Json) {
    v == Text(MASK) || v == Text("")
  }

  /** Every field in it that is marked as secret is empty, or holds the mask itself. */
  predicate Settled(j: Json)
    requires j.Obj?
    decreases j, 1
  {
    var ms := j.members;
    if IsSecret(ms) then ValueAt(ms) >= 0 ==> IsMasked(ms[ValueAt(ms)].value)
    else forall i :: 0 <= i < |ms| ==> SettledChild(ms[i].value)
  }

  predicate SettledChild(v: Json) {
    match v
    case Obj(_) => Settled(v)
    case Arr(items) => forall i :: 0 <= i < |items| && items[i].Obj? ==> Settled(items[i])
    case _ => true
  }

  lemma {:induction false} MaskFormKeepsIff(j: Json)
    requires j.Obj?
    ensures MaskForm(j) == j <==> Settled(j)
    decreases j, 1
  {
    var p, q := j.members, MaskForm(j).members;
    if !IsSecret(p) {
      forall i | 0 <= i < |p| ensures q[i] == p[i] <==> SettledChild(p[i].value) { MaskChildKeepsIff(p[i].value); }
      assert q == p <==> forall i :: 0 <= i < |p| ==> q[i] == p[i];
    } else if ValueAt(p) >= 0 {
      assert q == p <==> q[ValueAt(p)] == p[ValueAt(p)];
    }
  }

  lemma {:induction false} MaskChildKeepsIff(v: Json)
    ensures MaskChild(v) == v <==> SettledChild(v)
    decreases v, 2
  {
    match v
    case Obj(_) => MaskFormKeepsIff(v);
    case Arr(items) =>
      var q := MaskChild(v).items;
      forall i | 0 <= i < |items| && items[i].Obj? ensures MaskForm(items[i]) == items[i] <==> Settled(items[i]) {
        MaskFormKeepsIff(items[i]);
      }
      assert q == items <==> forall i :: 0 <= i < |items| ==> q[i] == items[i];
    case _ =>
  }

  /** The form's pass leaves the i-th member of the state as it is. */
  predicate LeftAlone(ms: seq<Member>, i: nat)
    requires i < |ms|
  {
    if IsSecret(ms) then i == ValueAt(ms) ==> IsMasked(ms[i].value) else SettledChild(ms[i].value)
  }

  lemma FormPassKeepsIff(ms: seq<Member>, i: nat)
    requires i < |ms|
    ensures FormPass(ms)[i].value == ms[i].value <==> LeftAlone(ms, i)
    ensures HasValue(FormPass(ms)[i].value) == HasValue(ms[i].value)
    ensures FormPass(ms)[i].value.Obj? ==>
      ms[i].value.Obj? && |FormPass(ms)[i].value.members| == |ms[i].value.members|
  {
    MaskChildKeepsIff(ms[i].value);
  }

  /** An object in which a secret key carries the mask. */
  predicate Carries(v: Json, keys: seq<string>) {
    v.Obj? && exists m :: m in v.members && m.key in keys && m.value == Text(MASK)
  }

  lemma {:induction false} StripKeepsIff(ms: seq<Member>, keys: seq<string>)
    ensures |StripMembers(ms, keys)| <= |ms|
    ensures if Carries(Obj(ms), keys) then |StripMembers(ms, keys)| < |ms| else StripMembers(ms, keys) == ms
  {
    if ms != [] {
      var most, m := ms[..|ms| - 1], ms[|ms| - 1];
      StripKeepsIff(most, keys);
      CarriesLast(most, m, keys);
      assert ms == most + [m];
      assert StripMembers(ms, keys) ==
        StripMembers(most, keys) + if m.key in keys && m.value == Text(MASK) then [] else [m];
      hide Carries, StripMembers;
    }
  }

  lemma CarriesLast(most: seq<Member>, m: Member, keys: seq<string>)
    ensures Carries(Obj(most + [m]), keys) <==>
      Carries(Obj(most), keys) || (m.key in keys && m.value == Text(MASK))
  {
    var all := most + [m];
    assert forall x :: x in all <==> x in most || x == m;
  }

  /** What both passes give at a key. */
  lemma MaskedAt(ms: seq<Member>, keys: seq<string>, i: nat)
    requires Once(ms) && i < |ms|
    ensures var r, k, v := MaskAll(ms, keys), ms[i].key, FormPass(ms)[i].value;
      k in r && r[k] == if k in keys then Masked(v) else v
  {
    var k := ms[i].key;
    var p := FormPass(ms);
    assert p[i].key == k;
    hide FormPass;
    assert ByKey(p)[k] == p[i].value;
  }

  /** What stripMasked leaves at a key. */
  lemma StrippedAt(b: Flat, keys: seq<string>, k: string)
    requires k in b
    ensures var r := StripMasked(b, keys);
      if k in keys && b[k] == Text(MASK) then k !in r
      else k in r && r[k] == if k == SETTINGS && b[k].Obj? then Obj(StripMembers(b[k].members, keys)) else b[k]
  {
    hide StripMembers;
  }

  /** What is written for a key that is not secret. */
  lemma PlainWritten(ms: seq<Member>, keys: seq<string>, i: nat)
    requires Once(ms) && i < |ms| && ms[i].key !in keys
    ensures var body, k := StripMasked(MaskAll(ms, keys), keys), ms[i].key;
      k in body && (body[k] == ms[i].value <==> LeftAlone(ms, i) && (k == SETTINGS ==> !Carries(ms[i].value, keys)))
  {
    hide *;
    var k, v := ms[i].key, FormPass(ms)[i].value;
    FormPassKeepsIff(ms, i);
    MaskedAt(ms, keys, i);
    StrippedAt(MaskAll(ms, keys), keys, k);
    if v.Obj? {
      StripKeepsIff(v.members, keys);
      assert v == Obj(v.members);
    } else {
      OnlyObjectsCarry(v, keys);
    }
  }

  lemma OnlyObjectsCarry(v: Json, keys: seq<string>)
    ensures Carries(v, keys) ==> v.Obj?
  {
  }

  /** What is written for a secret one: nothing if it is set, else an empty text. */
  lemma SecretWritten(ms: seq<Member>, keys: seq<string>, i: nat)
    requires Once(ms) && i < |ms| && ms[i].key in keys
    ensures var body, k := StripMasked(MaskAll(ms, keys), keys), ms[i].key;
      if HasValue(ms[i].value) then k !in body else k in body && body[k] == Text("")
  {
    hide MaskAll, StripMasked, FormPass, Once;
    FormPassKeepsIff(ms, i);
    MaskedAt(ms, keys, i);
    StrippedAt(MaskAll(ms, keys), keys, ms[i].key);
  }

  /** A member reads the same after its masked reading was written back. */
  predicate Unchanged(ms: seq<Member>, keys: seq<string>, i: nat)
    requires i < |ms|
  {
    if ms[i].key in keys then !ms[i].value.Null?
    else LeftAlone(ms, i) && (ms[i].key == SETTINGS ==> !Carries(ms[i].value, keys))
  }

  lemma WrittenBackAt(ms: seq<Member>, keys: seq<string>, i: nat)
    requires Once(ms) && i < |ms|
    ensures var s, body, k := ByKey(ms), StripMasked(MaskAll(ms, keys), keys), ms[i].key;
      k in s && s[k] == ms[i].value && ((if k in body then body[k] else s[k]) == s[k] <==> Unchanged(ms, keys, i))
  {
    hide MaskAll, StripMasked, LeftAlone, Carries;
    if ms[i].key in keys { SecretWritten(ms, keys, i); } else { PlainWritten(ms, keys, i); }
  }

  lemma KeysStay(ms: seq<Member>, keys: seq<string>)
    requires Once(ms)
    ensures StripMasked(MaskAll(ms, keys), keys).Keys <= ByKey(ms).Keys
  {
    hide StripMembers;
  }

  /** A state's masked reading written back leaves it as it was exactly if no secret in it is null (one that is
      comes back as an empty text), the form's pass finds nothing of its own to mask, and no secret key within
      the settings carries the mask. */
  lemma WritingBackIff(ms: seq<Member>, keys: seq<string>)
    requires Once(ms)
    ensures Update(ByKey(ms), StripMasked(MaskAll(ms, keys), keys)) == ByKey(ms) <==>
      forall i :: 0 <= i < |ms| ==>
        if ms[i].key in keys then !ms[i].value.Null?
        else LeftAlone(ms, i) && (ms[i].key == SETTINGS ==> !Carries(ms[i].value, keys))
  {
    KeysStay(ms, keys);
    hide StripMasked, MaskAll, LeftAlone, Carries;
    var s, body := ByKey(ms), StripMasked(MaskAll(ms, keys), keys);
    forall i | 0 <= i < |ms| ensures Update(s, body)[ms[i].key] == s[ms[i].key] <==> Unchanged(ms, keys, i) {
      WrittenBackAt(ms, keys, i);
    }
    SameByKey(ms, Update(s, body));
  }

  /** One state for each way to fail: a secret that is null, a form's secret that is not in the list, and settings
      in which a secret really reads as the mask. */
  lemma WritingBackCanChange()
    ensures var ms, keys := [Member("password", Null)], ["password"];
      Once(ms) && Update(ByKey(ms), StripMasked(MaskAll(ms, keys), keys)) != ByKey(ms)
    ensures var ms := [Member("wifi", Obj([Member("password", Text("abc")), Member(OPTIONS, Text(SECRET))]))];
      Once(ms) && Update(ByKey(ms), StripMasked(MaskAll(ms, []), [])) != ByKey(ms)
    ensures var ms, keys := [Member(SETTINGS, Obj([Member("password", Text(MASK))]))], ["password"];
      Once(ms) && Update(ByKey(ms), StripMasked(MaskAll(ms, keys), keys)) != ByKey(ms)
  {
    NullChanges();
    FormChanges();
    SettingsChange();
  }

  lemma NullChanges()
    ensures var ms, keys := [Member("password", Null)], ["password"];
      Once(ms) && Update(ByKey(ms), StripMasked(MaskAll(ms, keys), keys)) != ByKey(ms)
  {
    var ms, keys := [Member("password", Null)], ["password"];
    assert Once(ms) && ms[0].key in keys && ms[0].value.Null?;
    hide *;
    WritingBackIff(ms, keys);
  }

  lemma FormChanges()
    ensures var ms := [Member("wifi", Obj([Member("password", Text("abc")), Member(OPTIONS, Text(SECRET))]))];
      Once(ms) && Update(ByKey(ms), StripMasked(MaskAll(ms, []), [])) != ByKey(ms)
  {
    var field := [Member("password", Text("abc")), Member(OPTIONS, Text(SECRET))];
    var ms := [Member("wifi", Obj(field))];
    assert Find(field, OPTIONS) == 1 by { assert field[1..][0] == field[1]; }
    assert IsSecret(field) && ValueAt(field) == 0 && !IsMasked(field[0].value);
    var j := Obj(field);
    assert j.Obj? && !Settled(j);
    assert ms[0].value == j && !SettledChild(j);
    assert "wifi"[0] != OPTIONS[0] && !IsSecret(ms);
    assert !LeftAlone(ms, 0) && Once(ms);
    hide *;
    WritingBackIff(ms, []);
  }

  lemma SettingsChange()
    ensures var ms, keys := [Member(SETTINGS, Obj([Member("password", Text(MASK))]))], ["password"];
      Once(ms) && Update(ByKey(ms), StripMasked(MaskAll(ms, keys), keys)) != ByKey(ms)
  {
    var inner, keys := [Member("password", Text(MASK))], ["password"];
    var ms := [Member(SETTINGS, Obj(inner))];
    assert Once(ms) && SETTINGS != "password" && ms[0].key !in keys;
    assert Carries(ms[0].value, keys) by { assert inner[0] in inner && inner[0].key in keys; }
    hide *;
    WritingBackIff(ms, keys);
  }

  lemma SameByKey(ms: seq<Member>, t: Flat)
    requires Once(ms) && t.Keys == ByKey(ms).Keys
    ensures t == ByKey(ms) <==> forall i :: 0 <= i < |ms| ==> t[ms[i].key] == ms[i].value
  {
  }

  /** A secret that the page really changed is written; the mask itself never is, in an envelope neither. */
  lemma OnlyTheMaskIsDropped(s: Flat, body: Flat, keys: seq<string>, k: string)
    requires k in body && k in keys && (k == SETTINGS ==> !body[k].Obj?)
    ensures var t := Update(s, StripMasked(body, keys));
      if body[k] == Text(MASK) then (k in t <==> k in s) && (k in s ==> t[k] == s[k]) else k in t && t[k] == body[k]
    ensures var stripped := StripMasked(body, keys);
      SETTINGS in stripped && stripped[SETTINGS].Obj? ==>
        && SETTINGS in body && body[SETTINGS].Obj?
        && forall m :: m in stripped[SETTINGS].members <==>
          m in body[SETTINGS].members && !(m.key in keys && m.value == Text(MASK))
  {
    if SETTINGS in body && body[SETTINGS].Obj? { StrippedMembers(body[SETTINGS].members, keys); }
  }

  // ---- as the page sees it

  /** A field of a form whose options begin with "secret;" shows eight stars. */
  lemma FieldShows(text: string, options: string)
    requires text != ""
    ensures var field := Obj([Member("password", Text(text)), Member("o", Text("secret;" + options))]);
      MaskForm(field) == Obj([Member("password", Text("********")), Member("o", Text("secret;" + options))])
  {
    var ms := [Member("password", Text(text)), Member("o", Text("secret;" + options))];
    var said := "secret;" + options;
    assert said[..7] == "secret;";
    assert Find(ms, OPTIONS) == 1 by { assert ms[1..][0] == ms[1]; }
    assert IsSecret(ms) && ValueAt(ms) == 0;
    assert MaskForm(Obj(ms)).members == ms[0 := WithValue(ms[0], Masked(ms[0].value))];
    assert ms[0 := WithValue(ms[0], Masked(ms[0].value))] ==
      [Member("password", Text("********")), Member("o", Text("secret;" + options))];
  }

  /** In the settings envelope the eight stars are dropped, and the rest stays. */
  lemma SettingsStripped(name: Json)
    requires name != Text("********")
    ensures var body: Flat := map["settings" := Obj([Member("password", Text("********")), Member("ssid", name)])];
      StripMasked(body, ["password", "ssid"]) == map["settings" := Obj([Member("ssid", name)])]
  {
    var ms := [Member("password", Text("********")), Member("ssid", name)];
    var body: Flat := map["settings" := Obj(ms)];
    var keys := ["password", "ssid"];
    assert SETTINGS == "settings" && SETTINGS !in keys;
    assert StripIn(body, keys) == body;
    assert ms[..1] == [ms[0]] && ms[..1][..0] == [];
    assert StripMembers([], keys) == [];
    assert StripMembers(ms[..1], keys) == [] by { assert ms[0].key in keys; }
    assert StripMembers(ms, keys) == [ms[1]];
  }

  /** What is set: anything but null and the empty text. */
  lemma SetIs(v: Json)
    ensures Masked(v) == Text("********") <==> v != Null && v != Text("")
    ensures Masked(v) == Text("") <==> v == Null || v == Text("")
  {
  }
}
