/** The request sanitizers of the gateway (trim, then strip) and of the service (strip only), on every nested value. */
module Sanitizers {
  import opened Text

  /** White space and line terminators of ECMAScript, what String.prototype.trim removes. */
  predicate JsSpace(c: char) {
    || 9 as char <= c <= 13 as char || c == ' ' || c == '\U{A0}' || c == '\U{1680}' || '\U{2000}' <= c <= '\U{200A}'
    || c == '\U{2028}' || c == '\U{2029}' || c == '\U{202F}' || c == '\U{205F}' || c == '\U{3000}' || c == '\U{FEFF}'
  }

  /** The class [\x00-\x08\x0B\x0C\x0E-\x1F\x7F] that both sides remove. */
  predicate Control(c: char) {
    c <= 8 as char || c == 11 as char || c == 12 as char || 14 as char <= c <= 31 as char || c == 127 as char
  }

  function StripControl(s: string): string {
    if s == "" then "" else if Control(s[0]) then StripControl(s[1..]) else [s[0]] + StripControl(s[1..])
  }

  function JsTrim(s: string): string {
    Trim(s, JsSpace)
  }

  /** One gateway pass over a string; the first of its two replacements is part of the second. */
  function Clean(s: string): string {
    StripControl(JsTrim(s))
  }

  datatype Json = Str(s: string) | Other(n: int) | Arr(items: seq<Json>) | Obj(fields: seq<Field>)

  datatype Field = Field(key: string, value: Json)

  /** Assignment to a property: replaces the value of a key that is there, otherwise adds the key last. */
  function Put(fs: seq<Field>, key: string, value: Json): seq<Field> {
    if fs == [] then [Field(key, value)]
    else if fs[0].key == key then [Field(key, value)] + fs[1..]
    else [fs[0]] + Put(fs[1..], key, value)
  }

  function Sanitized(v: Json): Json
    decreases v, 1
  {
    match v
    case Str(s) => Str(Clean(s))
    case Other(_) => v
    case Arr(items) => Arr(SanitizedItems(items))
    case Obj(fs) => Obj(SanitizedFields([], fs))
  }

  function SanitizedItems(items: seq<Json>): seq<Json>
    decreases items, 0
  {
    if items == [] then [] else [Sanitized(items[0])] + SanitizedItems(items[1..])
  }

  /** The remaining fields put, one after the other, into the object built so far. */
  function SanitizedFields(done: seq<Field>, fs: seq<Field>): seq<Field>
    decreases fs, 0
  {
    if fs == [] then done
    else assert fs[0].value < fs[0]; SanitizedFields(Put(done, JsTrim(fs[0].key), Sanitized(fs[0].value)), fs[1..])
  }

  method Sanitize(v: Json) returns (r: Json)
    ensures r == Sanitized(v)
    decreases v
  {
    match v
    case Str(s) =>
      var sanitized := JsTrim(s);
      sanitized := StripControl(sanitized);
      r := Str(sanitized);
    case Other(_) => r := v;
    case Arr(items) =>
      var out := [];
      assert items[0..] == items;
      for i := 0 to |items|
        invariant out + SanitizedItems(items[i..]) == SanitizedItems(items)
      {
        var x := Sanitize(items[i]);
        assert items[i..][0] == items[i] && items[i..][1..] == items[i + 1..];
        out := out + [x];
      }
      assert items[|items|..] == [] && out + [] == out;
      r := Arr(out);
    case Obj(fs) =>
      var sanitized := [];
      assert fs[0..] == fs;
      for i := 0 to |fs|
        invariant SanitizedFields(sanitized, fs[i..]) == SanitizedFields([], fs)
      {
        assert fs[i] in v.fields && fs[i].value < fs[i];
        var x := Sanitize(fs[i].value);
        assert fs[i..][0] == fs[i] && fs[i..][1..] == fs[i + 1..];
        sanitized := Put(sanitized, JsTrim(fs[i].key), x);
      }
      assert fs[|fs|..] == [];
      r := Obj(sanitized);
  }

  /** The service side leaves keys and outer blanks alone. */
  function ServiceSanitized(v: Json): Json
    decreases v, 1
  {
    match v
    case Str(s) => Str(StripControl(s))
    case Other(_) => v
    case Arr(items) => Arr(ServiceItems(items))
    case Obj(fs) => Obj(ServiceFields(fs))
  }

  function ServiceItems(items: seq<Json>): seq<Json>
    decreases items, 0
  {
    if items == [] then [] else [ServiceSanitized(items[0])] + ServiceItems(items[1..])
  }

  function ServiceFields(fs: seq<Field>): seq<Field>
    decreases fs, 0
  {
    if fs == [] then []
    else assert fs[0].value < fs[0]; [Field(fs[0].key, ServiceSanitized(fs[0].value))] + ServiceFields(fs[1..])
  }

  // ---------------------------------------------------------------- strings

  predicate NoControl(s: string) {
    forall i :: 0 <= i < |s| ==> !Control(s[i])
  }

  predicate Trimmed(s: string) {
    s != "" ==> !JsSpace(s[0]) && !JsSpace(s[|s| - 1])
  }

  lemma {:induction false} StripCleans(s: string)
    ensures NoControl(StripControl(s))
  {
    if s == "" {
    } else {
      StripCleans(s[1..]);
    }
  }

  lemma {:induction false} StripKeepsClean(s: string)
    requires NoControl(s)
    ensures StripControl(s) == s
  {
    if s == "" {
    } else {
      StripKeepsClean(s[1..]);
    }
  }

  lemma StripCons(c: char, y: string)
    ensures StripControl([c] + y) == (if Control(c) then "" else [c]) + StripControl(y)
  {
    assert ([c] + y)[1..] == y;
  }

  lemma {:induction false} StripConcat(a: string, b: string)
    ensures StripControl(a + b) == StripControl(a) + StripControl(b)
  {
    if a == "" {
      assert a + b == b;
    } else {
      StripConcat(a[1..], b);
      StripCons(a[0], a[1..]);
      StripCons(a[0], a[1..] + b);
      assert a == [a[0]] + a[1..] && a + b == [a[0]] + (a[1..] + b);
    }
  }

  lemma {:induction false} TrimLeftParts(s: string, p: char -> bool)
    ensures var t := TrimLeft(s, p); |t| <= |s| && t == s[|s| - |t|..] && (t != "" ==> !p(t[0]))
  {
    if s != "" && p(s[0]) {
      var t := TrimLeft(s[1..], p);
      TrimLeftParts(s[1..], p);
      assert s[1..][|s| - 1 - |t|..] == s[|s| - |t|..];
    } else {
      assert s[0..] == s;
    }
  }

  lemma {:induction false} TrimRightParts(s: string, p: char -> bool)
    ensures var t := TrimRight(s, p); |t| <= |s| && t == s[..|t|] && (t != "" ==> !p(t[|t| - 1]))
  {
    if s == "" {
    } else if p(s[|s| - 1]) {
      TrimRightParts(s[..|s| - 1], p);
    }
  }

  lemma {:induction false} TrimRightCons(c: char, y: string, p: char -> bool)
    ensures TrimRight([c] + y, p)
         == (if TrimRight(y, p) == "" then (if p(c) then "" else [c]) else [c] + TrimRight(y, p))
  {
    var x := [c] + y;
    if y == "" {
      assert x[..0] == "";
    } else {
      var n := |y| - 1;
      assert x[..|x| - 1] == [c] + y[..n];
      if p(y[n]) {
        TrimRightCons(c, y[..n], p);
      }
    }
  }

  lemma {:induction false} TrimsCommute(x: string, p: char -> bool)
    ensures TrimRight(TrimLeft(x, p), p) == TrimLeft(TrimRight(x, p), p)
  {
    if x == "" {
    } else {
      assert x == [x[0]] + x[1..];
      TrimRightCons(x[0], x[1..], p);
      if p(x[0]) {
        TrimsCommute(x[1..], p);
      }
    }
  }

  lemma {:induction false} StripTrimLeft(s: string)
    ensures TrimLeft(StripControl(TrimLeft(s, JsSpace)), JsSpace) == TrimLeft(StripControl(s), JsSpace)
  {
    if s == "" {
    } else if JsSpace(s[0]) {
      StripTrimLeft(s[1..]);
    }
  }

  lemma TrimRightSnoc(x: string, c: char, p: char -> bool)
    requires p(c)
    ensures TrimRight(x + [c], p) == TrimRight(x, p)
  {
    assert (x + [c])[..|x|] == x;
  }

  lemma {:induction false} StripTrimRight(s: string)
    ensures TrimRight(StripControl(TrimRight(s, JsSpace)), JsSpace) == TrimRight(StripControl(s), JsSpace)
  {
    var n := |s| - 1;
    if s == "" {
    } else if JsSpace(s[n]) {
      StripTrimRight(s[..n]);
      assert s == s[..n] + [s[n]];
      StripConcat(s[..n], [s[n]]);
      TrimRightSnoc(StripControl(s[..n]), s[n], JsSpace);
      StripCons(s[n], "");
      assert [s[n]] + "" == [s[n]];
      assert StripControl(s) == if Control(s[n]) then StripControl(s[..n]) else StripControl(s[..n]) + [s[n]];
    }
  }

  /** Trimming before stripping makes no difference to what trimming after it yields. */
  lemma TrimStripTrim(s: string)
    ensures JsTrim(StripControl(JsTrim(s))) == JsTrim(StripControl(s))
  {
    var u := TrimLeft(s, JsSpace);
    var t := TrimRight(u, JsSpace);
    TrimsCommute(StripControl(t), JsSpace);
    StripTrimRight(u);
    TrimsCommute(StripControl(u), JsSpace);
    StripTrimLeft(s);
  }

  lemma TrimIsTrimmed(s: string)
    ensures Trimmed(JsTrim(s))
    ensures Trimmed(s) ==> JsTrim(s) == s
    ensures NoControl(s) ==> NoControl(JsTrim(s))
  {
    TrimLeftParts(s, JsSpace);
    TrimRightParts(TrimLeft(s, JsSpace), JsSpace);
  }

  /** Two gateway passes over a string are one strip followed by one trim, and a third changes nothing. */
  lemma TwoPassesOnString(s: string)
    ensures Clean(Clean(s)) == JsTrim(StripControl(s))
    ensures Clean(Clean(Clean(s))) == Clean(Clean(s))
  {
    var a := Clean(s);
    StripCleans(JsTrim(s));
    TrimIsTrimmed(a);
    StripKeepsClean(JsTrim(a));
    TrimStripTrim(s);
    TrimIsTrimmed(JsTrim(a));
  }

  /** Reading on from the front: control characters, then the end or something that is not white space. */
  predicate StartsClean(s: string) {
    s == "" || if Control(s[0]) then StartsClean(s[1..]) else !JsSpace(s[0])
  }

  /** The same from the back. */
  predicate EndsClean(s: string) {
    s == "" || if Control(s[|s| - 1]) then EndsClean(s[..|s| - 1]) else !JsSpace(s[|s| - 1])
  }

  /** No white space behind the control characters at either end of the trimmed text. */
  predicate CleanEnds(s: string) {
    StartsClean(JsTrim(s)) && EndsClean(JsTrim(s))
  }

  lemma {:induction false} StartOfStripped(s: string)
    ensures StartsClean(s) <==> (StripControl(s) != "" ==> !JsSpace(StripControl(s)[0]))
  {
    if s == "" {
    } else if Control(s[0]) {
      StartOfStripped(s[1..]);
    }
  }

  lemma {:induction false} EndOfStripped(s: string)
    ensures var r := StripControl(s); EndsClean(s) <==> (r != "" ==> !JsSpace(r[|r| - 1]))
  {
    if s == "" {
    } else {
      var n := |s| - 1;
      assert s == s[..n] + [s[n]] && [s[n]] + "" == [s[n]];
      StripConcat(s[..n], [s[n]]);
      StripCons(s[n], "");
      if Control(s[n]) {
        EndOfStripped(s[..n]);
        assert StripControl(s) == StripControl(s[..n]);
      }
    }
  }

  lemma TrimmedResult(s: string)
    ensures Trimmed(Clean(s)) <==> CleanEnds(s)
  {
    StartOfStripped(JsTrim(s));
    EndOfStripped(JsTrim(s));
  }

  /** One pass is enough exactly for texts that hide no outer white space behind control characters. */
  lemma OnePassEnough(s: string)
    ensures Clean(Clean(s)) == Clean(s) <==> CleanEnds(s)
  {
    var a := Clean(s);
    TrimmedResult(s);
    StripCleans(JsTrim(s));
    TrimIsTrimmed(a);
    StripKeepsClean(JsTrim(a));
  }

  /** A null byte in front of a blank: the first pass uncovers the blank, the second removes it. */
  lemma OnePassIsNotEnough()
    ensures Clean(Clean([0 as char, ' ', 'a'])) != Clean([0 as char, ' ', 'a'])
  {
    var s := [0 as char, ' ', 'a'];
    assert JsTrim(s) == s;
    assert s[1..][0] == ' ' && !StartsClean(s[1..]);
    OnePassEnough(s);
  }

  // ---------------------------------------------------------------- nested values

  predicate DistinctKeys(fs: seq<Field>) {
    forall i, j :: 0 <= i < j < |fs| ==> fs[i].key != fs[j].key
  }

  /** No control characters in strings, and objects with trimmed, distinct keys. */
  predicate Half(v: Json)
    decreases v, 1
  {
    match v
    case Str(s) => NoControl(s)
    case Other(_) => true
    case Arr(items) => forall i :: 0 <= i < |items| ==> Half(items[i])
    case Obj(fs) => HalfFields(fs)
  }

  predicate HalfFields(fs: seq<Field>)
    decreases fs, 0
  {
    && DistinctKeys(fs)
    && forall i :: 0 <= i < |fs| ==> assert fs[i].value < fs[i]; JsTrim(fs[i].key) == fs[i].key && Half(fs[i].value)
  }

  /** Also trimmed strings: nothing left to do. */
  predicate Stable(v: Json)
    decreases v, 1
  {
    match v
    case Str(s) => NoControl(s) && Trimmed(s)
    case Other(_) => true
    case Arr(items) => forall i :: 0 <= i < |items| ==> Stable(items[i])
    case Obj(fs) => StableFields(fs)
  }

  predicate StableFields(fs: seq<Field>)
    decreases fs, 0
  {
    && DistinctKeys(fs)
    && forall i :: 0 <= i < |fs| ==> assert fs[i].value < fs[i]; JsTrim(fs[i].key) == fs[i].key && Stable(fs[i].value)
  }

  lemma {:induction false} PutHolds(fs: seq<Field>, key: string, value: Json, x: Field)
    requires x in Put(fs, key, value)
    ensures x == Field(key, value) || x in fs
  {
    if fs == [] {
    } else if fs[0].key != key && x != fs[0] {
      PutHolds(fs[1..], key, value, x);
    }
  }

  lemma {:induction false} PutKeepsDistinct(fs: seq<Field>, key: string, value: Json)
    requires DistinctKeys(fs)
    ensures DistinctKeys(Put(fs, key, value))
  {
    if fs == [] {
    } else if fs[0].key != key {
      var rest := Put(fs[1..], key, value);
      PutKeepsDistinct(fs[1..], key, value);
      forall j | 0 <= j < |rest| ensures rest[j].key != fs[0].key {
        PutHolds(fs[1..], key, value, rest[j]);
      }
    }
  }

  lemma {:induction false} FirstPass(v: Json)
    ensures Half(Sanitized(v))
    decreases v, 1
  {
    match v
    case Str(s) => StripCleans(JsTrim(s));
    case Other(_) =>
    case Arr(items) => FirstPassItems(items);
    case Obj(fs) => FirstPassFields([], fs);
  }

  lemma {:induction false} FirstPassItems(items: seq<Json>)
    ensures var r := SanitizedItems(items); |r| == |items| && forall i :: 0 <= i < |r| ==> Half(r[i])
    decreases items, 0
  {
    if items == [] {
    } else {
      FirstPass(items[0]);
      FirstPassItems(items[1..]);
    }
  }

  lemma {:induction false} FirstPassFields(done: seq<Field>, fs: seq<Field>)
    requires HalfFields(done)
    ensures HalfFields(SanitizedFields(done, fs))
    decreases fs, 0
  {
    if fs == [] {
    } else {
      assert fs[0].value < fs[0];
      var k, x := JsTrim(fs[0].key), Sanitized(fs[0].value);
      FirstPass(fs[0].value);
      TrimIsTrimmed(fs[0].key);
      TrimIsTrimmed(k);
      var next := Put(done, k, x);
      PutKeepsDistinct(done, k, x);
      forall i | 0 <= i < |next| ensures JsTrim(next[i].key) == next[i].key && Half(next[i].value) {
        PutHolds(done, k, x, next[i]);
      }
      FirstPassFields(next, fs[1..]);
    }
  }

  /** Putting a key that is not there adds it last. */
  lemma {:induction false} PutNew(fs: seq<Field>, key: string, value: Json)
    requires forall i :: 0 <= i < |fs| ==> fs[i].key != key
    ensures Put(fs, key, value) == fs + [Field(key, value)]
  {
    if fs == [] {
    } else {
      PutNew(fs[1..], key, value);
    }
  }

  lemma {:induction false} SecondPass(v: Json)
    requires Half(v)
    ensures Stable(Sanitized(v))
    decreases v, 1
  {
    match v
    case Str(s) =>
      TrimIsTrimmed(s);
      StripKeepsClean(JsTrim(s));
    case Other(_) =>
    case Arr(items) => SecondPassItems(items);
    case Obj(fs) =>
      assert [] + fs == fs;
      SecondPassFields([], fs);
  }

  lemma {:induction false} SecondPassItems(items: seq<Json>)
    requires forall i :: 0 <= i < |items| ==> Half(items[i])
    ensures var r := SanitizedItems(items); |r| == |items| && forall i :: 0 <= i < |r| ==> Stable(r[i])
    decreases items, 0
  {
    if items == [] {
    } else {
      SecondPass(items[0]);
      SecondPassItems(items[1..]);
    }
  }

  predicate KeysApart(done: seq<Field>, fs: seq<Field>) {
    forall i, j :: 0 <= i < |done| && 0 <= j < |fs| ==> done[i].key != fs[j].key
  }

  lemma {:induction false} SecondPassFields(done: seq<Field>, fs: seq<Field>)
    requires StableFields(done) && HalfFields(fs) && KeysApart(done, fs)
    ensures StableFields(SanitizedFields(done, fs))
    decreases fs, 0
  {
    if fs == [] {
    } else {
      assert fs[0].value < fs[0];
      var x := Sanitized(fs[0].value);
      SecondPass(fs[0].value);
      PutNew(done, fs[0].key, x);
      var next := done + [Field(fs[0].key, x)];
      assert HalfFields(fs[1..]) && KeysApart(next, fs[1..]);
      assert StableFields(next);
      SecondPassFields(next, fs[1..]);
    }
  }

  lemma {:induction false} StableIsFixed(v: Json)
    requires Stable(v)
    ensures Sanitized(v) == v
    decreases v, 1
  {
    match v
    case Str(s) =>
      TrimIsTrimmed(s);
      StripKeepsClean(s);
    case Other(_) =>
    case Arr(items) => StableItemsFixed(items);
    case Obj(fs) =>
      assert [] + fs == fs;
      StableFieldsFixed([], fs);
  }

  lemma {:induction false} StableItemsFixed(items: seq<Json>)
    requires forall i :: 0 <= i < |items| ==> Stable(items[i])
    ensures SanitizedItems(items) == items
    decreases items, 0
  {
    if items == [] {
    } else {
      StableIsFixed(items[0]);
      StableItemsFixed(items[1..]);
    }
  }

  lemma MoveOne<T>(a: seq<T>, b: seq<T>)
    requires b != []
    ensures a + [b[0]] + b[1..] == a + b
  {
  }

  lemma StableHead(done: seq<Field>, fs: seq<Field>)
    requires fs != [] && StableFields(fs) && KeysApart(done, fs)
    ensures Stable(fs[0].value) && JsTrim(fs[0].key) == fs[0].key
    ensures forall i :: 0 <= i < |done| ==> done[i].key != fs[0].key
  {
  }

  /** A field that is left as it is goes last. */
  lemma FieldFixed(done: seq<Field>, fs: seq<Field>)
    requires fs != [] && JsTrim(fs[0].key) == fs[0].key && Sanitized(fs[0].value) == fs[0].value
    requires forall i :: 0 <= i < |done| ==> done[i].key != fs[0].key
    ensures SanitizedFields(done, fs) == SanitizedFields(done + [fs[0]], fs[1..])
  {
    PutNew(done, fs[0].key, fs[0].value);
  }

  lemma StableTail(done: seq<Field>, fs: seq<Field>)
    requires fs != [] && StableFields(fs) && KeysApart(done, fs)
    ensures StableFields(fs[1..]) && KeysApart(done + [fs[0]], fs[1..])
  {
  }

  lemma {:induction false} StableFieldsFixed(done: seq<Field>, fs: seq<Field>)
    requires StableFields(fs) && KeysApart(done, fs)
    ensures SanitizedFields(done, fs) == done + fs
    decreases fs, 0
  {
    if fs == [] {
      assert done + fs == done;
    } else {
      assert fs[0].value < fs[0];
      StableHead(done, fs);
      StableIsFixed(fs[0].value);
      FieldFixed(done, fs);
      StableTail(done, fs);
      StableFieldsFixed(done + [fs[0]], fs[1..]);
      MoveOne(done, fs);
    }
  }

  /** On every nested value a third gateway pass changes nothing. */
  lemma StabilisesAfterTwo(v: Json)
    ensures Sanitized(Sanitized(Sanitized(v))) == Sanitized(Sanitized(v))
  {
    FirstPass(v);
    SecondPass(Sanitized(v));
    StableIsFixed(Sanitized(Sanitized(v)));
  }

  // ---------------------------------------------------------------- when one pass is enough

  /** No later field of the object has the same key once trimmed. */
  predicate Survives(fs: seq<Field>, i: nat)
    requires i < |fs|
  {
    forall j :: i < j < |fs| ==> JsTrim(fs[j].key) != JsTrim(fs[i].key)
  }

  /** Every string that the first pass keeps has clean ends. */
  predicate Enough(v: Json)
    decreases v
  {
    match v
    case Str(s) => CleanEnds(s)
    case Other(_) => true
    case Arr(items) => forall i :: 0 <= i < |items| ==> Enough(items[i])
    case Obj(fs) => forall i :: 0 <= i < |fs| && Survives(fs, i) ==> assert fs[i].value < fs[i]; Enough(fs[i].value)
  }

  lemma {:induction false} PutMembers(fs: seq<Field>, key: string, value: Json, y: Field)
    requires DistinctKeys(fs)
    ensures y in Put(fs, key, value) <==> y == Field(key, value) || (y in fs && y.key != key)
  {
    if fs == [] {
    } else if fs[0].key == key {
      assert y in fs <==> y == fs[0] || y in fs[1..];
      assert y in fs[1..] ==> y.key != key;
    } else {
      PutMembers(fs[1..], key, value, y);
      assert y in fs <==> y == fs[0] || y in fs[1..];
    }
  }

  predicate Kept(fs: seq<Field>, i: nat, y: Field)
    requires i < |fs|
  {
    Survives(fs, i) && y == Field(JsTrim(fs[i].key), Sanitized(fs[i].value))
  }

  /** y is what becomes of a surviving field. */
  predicate FromField(fs: seq<Field>, y: Field) {
    exists i :: 0 <= i < |fs| && Kept(fs, i, y)
  }

  predicate Overwritten(fs: seq<Field>, key: string) {
    exists j :: 0 <= j < |fs| && JsTrim(fs[j].key) == key
  }

  lemma FromFirst(fs: seq<Field>, y: Field)
    requires fs != []
    ensures FromField(fs, y) <==> FromField(fs[1..], y) || Kept(fs, 0, y)
    ensures Kept(fs, 0, y) <==>
              !Overwritten(fs[1..], JsTrim(fs[0].key)) && y == Field(JsTrim(fs[0].key), Sanitized(fs[0].value))
  {
    var rest := fs[1..];
    forall i | 0 <= i < |rest| ensures Kept(rest, i, y) <==> Kept(fs, i + 1, y) {
      assert forall j :: i < j < |rest| ==> rest[j] == fs[j + 1];
      assert forall j :: i + 1 < j < |fs| ==> fs[j] == rest[j - 1];
    }
    assert forall j :: 0 < j < |fs| ==> fs[j] == rest[j - 1];
    if i :| 0 <= i < |fs| && Kept(fs, i, y) && i > 0 {
      assert Kept(rest, i - 1, y);
    }
    if i :| 0 <= i < |rest| && Kept(rest, i, y) {
      assert Kept(fs, i + 1, y);
    }
  }

  /** What a pass over an object holds: its surviving fields, and what it held before under other keys. */
  lemma {:induction false} FieldsHeld(done: seq<Field>, fs: seq<Field>, y: Field)
    requires DistinctKeys(done)
    ensures y in SanitizedFields(done, fs) <==> FromField(fs, y) || (y in done && !Overwritten(fs, y.key))
    decreases fs
  {
    if fs == [] {
    } else {
      var k, x := JsTrim(fs[0].key), Sanitized(fs[0].value);
      PutKeepsDistinct(done, k, x);
      FieldsHeld(Put(done, k, x), fs[1..], y);
      PutMembers(done, k, x, y);
      FromFirst(fs, y);
      assert Overwritten(fs, y.key) <==> k == y.key || Overwritten(fs[1..], y.key) by {
        assert forall j :: 0 < j < |fs| ==> fs[j] == fs[1..][j - 1];
      }
    }
  }

  lemma {:induction false} ItemsSanitized(items: seq<Json>, i: nat)
    requires i < |items|
    ensures |SanitizedItems(items)| == |items| && SanitizedItems(items)[i] == Sanitized(items[i])
    decreases |items|
  {
    if i == 0 {
      ItemsLength(items);
    } else {
      ItemsSanitized(items[1..], i - 1);
    }
  }

  lemma {:induction false} ItemsLength(items: seq<Json>)
    ensures |SanitizedItems(items)| == |items|
    decreases |items|
  {
    if items == [] {
    } else {
      ItemsLength(items[1..]);
    }
  }

  /** A first pass leaves nothing to do exactly when every string it keeps has clean ends. */
  lemma {:induction false} StableIffEnough(v: Json)
    ensures Stable(Sanitized(v)) <==> Enough(v)
    decreases v, 1
  {
    match v
    case Str(s) =>
      StripCleans(JsTrim(s));
      TrimmedResult(s);
    case Other(_) =>
    case Arr(items) => StableIffEnoughItems(items);
    case Obj(fs) => StableIffEnoughFields(fs);
  }

  lemma {:induction false} StableIffEnoughItems(items: seq<Json>)
    ensures Stable(Sanitized(Arr(items))) <==> forall i :: 0 <= i < |items| ==> Enough(items[i])
    decreases items, 0
  {
    ItemsLength(items);
    forall i | 0 <= i < |items| ensures Stable(SanitizedItems(items)[i]) <==> Enough(items[i]) {
      ItemsSanitized(items, i);
      StableIffEnough(items[i]);
    }
  }

  lemma {:induction false} StableIffEnoughFields(fs: seq<Field>)
    ensures StableFields(SanitizedFields([], fs))
       <==> forall i :: 0 <= i < |fs| && Survives(fs, i) ==> Enough(fs[i].value)
    decreases fs, 0
  {
    var r := SanitizedFields([], fs);
    FirstPassFields([], fs);
    forall i | 0 <= i < |fs| && Survives(fs, i)
      ensures Field(JsTrim(fs[i].key), Sanitized(fs[i].value)) in r
      ensures Stable(Sanitized(fs[i].value)) <==> Enough(fs[i].value)
    {
      var y := Field(JsTrim(fs[i].key), Sanitized(fs[i].value));
      assert Kept(fs, i, y);
      FieldsHeld([], fs, y);
      assert fs[i].value < fs[i];
      StableIffEnough(fs[i].value);
    }
    if forall i :: 0 <= i < |fs| && Survives(fs, i) ==> Enough(fs[i].value) {
      forall k | 0 <= k < |r| ensures Stable(r[k].value) {
        FieldsHeld([], fs, r[k]);
        var i :| 0 <= i < |fs| && Kept(fs, i, r[k]);
      }
    }
  }

  /** Only what has nothing left to do is left as it is by a pass. */
  lemma {:induction false} FixedIsStable(v: Json)
    requires Half(v) && Sanitized(v) == v
    ensures Stable(v)
    decreases v, 1
  {
    match v
    case Str(s) =>
      TrimIsTrimmed(s);
      StripKeepsClean(JsTrim(s));
    case Other(_) =>
    case Arr(items) =>
      forall i | 0 <= i < |items| ensures Stable(items[i]) {
        ItemsSanitized(items, i);
        FixedIsStable(items[i]);
      }
    case Obj(fs) => FixedFieldsAreStable(fs);
  }

  lemma {:induction false} FixedFieldsAreStable(fs: seq<Field>)
    requires HalfFields(fs) && SanitizedFields([], fs) == fs
    ensures StableFields(fs)
    decreases fs, 0
  {
    forall i | 0 <= i < |fs| ensures Stable(fs[i].value) {
      assert fs[i] in fs;
      FieldsHeld([], fs, fs[i]);
      var j :| 0 <= j < |fs| && Kept(fs, j, fs[i]);
      assert JsTrim(fs[j].key) == fs[j].key && JsTrim(fs[i].key) == fs[i].key;
      assert i == j;
      assert fs[i].value < fs[i];
      FixedIsStable(fs[i].value);
    }
  }

  /**
   * On every nested value: a second gateway pass changes nothing if and only if every string that
   * survives the overwriting of keys hides no outer white space behind control characters.
   */
  lemma OnePassEnoughNested(v: Json)
    ensures Sanitized(Sanitized(v)) == Sanitized(v) <==> Enough(v)
  {
    FirstPass(v);
    StableIffEnough(v);
    if Stable(Sanitized(v)) {
      StableIsFixed(Sanitized(v));
    } else if Sanitized(Sanitized(v)) == Sanitized(v) {
      FixedIsStable(Sanitized(v));
    }
  }

  // ---------------------------------------------------------------- gateway and service together

  /** No control characters in any string. */
  predicate ControlFree(v: Json)
    decreases v, 1
  {
    match v
    case Str(s) => NoControl(s)
    case Other(_) => true
    case Arr(items) => forall i :: 0 <= i < |items| ==> ControlFree(items[i])
    case Obj(fs) => forall i :: 0 <= i < |fs| ==> assert fs[i].value < fs[i]; ControlFree(fs[i].value)
  }

  lemma {:induction false} ServiceKeepsClean(v: Json)
    requires ControlFree(v)
    ensures ServiceSanitized(v) == v
    decreases v, 1
  {
    match v
    case Str(s) => StripKeepsClean(s);
    case Other(_) =>
    case Arr(items) => ServiceKeepsItems(items);
    case Obj(fs) => ServiceKeepsFields(fs);
  }

  lemma {:induction false} ServiceKeepsItems(items: seq<Json>)
    requires forall i :: 0 <= i < |items| ==> ControlFree(items[i])
    ensures ServiceItems(items) == items
    decreases items, 0
  {
    if items == [] {
    } else {
      ServiceKeepsClean(items[0]);
      ServiceKeepsItems(items[1..]);
    }
  }

  lemma {:induction false} ServiceKeepsFields(fs: seq<Field>)
    requires forall i :: 0 <= i < |fs| ==> ControlFree(fs[i].value)
    ensures ServiceFields(fs) == fs
    decreases fs, 0
  {
    if fs == [] {
    } else {
      assert fs[0].value < fs[0];
      ServiceKeepsClean(fs[0].value);
      ServiceKeepsFields(fs[1..]);
    }
  }

  lemma {:induction false} ServiceCleans(v: Json)
    ensures ControlFree(ServiceSanitized(v))
    decreases v, 1
  {
    match v
    case Str(s) => StripCleans(s);
    case Other(_) =>
    case Arr(items) => ServiceCleansItems(items);
    case Obj(fs) => ServiceCleansFields(fs);
  }

  lemma {:induction false} ServiceCleansItems(items: seq<Json>)
    ensures var r := ServiceItems(items); |r| == |items| && forall i :: 0 <= i < |r| ==> ControlFree(r[i])
    decreases items, 0
  {
    if items == [] {
    } else {
      ServiceCleans(items[0]);
      ServiceCleansItems(items[1..]);
    }
  }

  lemma {:induction false} ServiceCleansFields(fs: seq<Field>)
    ensures var r := ServiceFields(fs); |r| == |fs| && forall i :: 0 <= i < |r| ==> ControlFree(r[i].value)
    decreases fs, 0
  {
    if fs == [] {
    } else {
      assert fs[0].value < fs[0];
      ServiceCleans(fs[0].value);
      ServiceCleansFields(fs[1..]);
    }
  }

  lemma {:induction false} HalfIsControlFree(v: Json)
    requires Half(v)
    ensures ControlFree(v)
    decreases v
  {
    match v
    case Arr(items) =>
      forall i | 0 <= i < |items| ensures ControlFree(items[i]) {
        HalfIsControlFree(items[i]);
      }
    case Obj(fs) =>
      forall i | 0 <= i < |fs| ensures ControlFree(fs[i].value) {
        assert fs[i] in v.fields && fs[i].value < fs[i];
        HalfIsControlFree(fs[i].value);
      }
    case _ =>
  }

  /** What trim removes: the white space and line terminators of ECMA-262, section 12. */
  lemma JsSpaceIs(c: char)
    ensures JsSpace(c) <==>
      || c in {'\t', '\n', '\U{0B}', '\U{0C}', '\r', ' ', '\U{A0}', '\U{FEFF}', '\U{2028}', '\U{2029}', '\U{1680}'}
      || c in {'\U{2000}', '\U{2001}', '\U{2002}', '\U{2003}', '\U{2004}', '\U{2005}', '\U{2006}', '\U{2007}'}
      || c in {'\U{2008}', '\U{2009}', '\U{200A}', '\U{202F}', '\U{205F}', '\U{3000}'}
  {
  }

  /** The characters that go: all below the blank but tab, newline and carriage return, and DEL. */
  lemma ControlIs(c: char)
    ensures Control(c) <==> (c < ' ' && c !in {'\t', '\n', '\r'}) || c == '\U{7F}'
  {
  }

  /** Of a string the service keeps every other character, in its place between the others. */
  lemma ServiceKeepsRest(a: string, c: char, b: string)
    ensures ServiceSanitized(Str("")) == Str("")
    ensures ServiceSanitized(Str(a + [c] + b)) ==
        Str(ServiceSanitized(Str(a)).s + (if Control(c) then "" else [c]) + ServiceSanitized(Str(b)).s)
  {
    StripConcat(a + [c], b);
    StripConcat(a, [c]);
    StripCons(c, "");
    assert [c] + "" == [c];
  }

  /** Numbers, booleans and null go through both sides as they are. */
  lemma ScalarsStay(n: int)
    ensures Sanitized(Other(n)) == Other(n) && ServiceSanitized(Other(n)) == Other(n)
  {
  }

  lemma {:induction false} ServiceItemAt(items: seq<Json>, i: nat)
    requires i < |items|
    ensures |ServiceItems(items)| == |items| && ServiceItems(items)[i] == ServiceSanitized(items[i])
  {
    if |items| == 1 {
    } else {
      ServiceItemAt(items[1..], if i == 0 then 0 else i - 1);
    }
  }

  lemma {:induction false} ServiceFieldAt(fs: seq<Field>, i: nat)
    requires i < |fs|
    ensures |ServiceFields(fs)| == |fs| && ServiceFields(fs)[i] == Field(fs[i].key, ServiceSanitized(fs[i].value))
  {
    if |fs| == 1 {
    } else {
      ServiceFieldAt(fs[1..], if i == 0 then 0 else i - 1);
    }
  }

  /** The service sanitizer is idempotent, and has nothing to do on what went through the gateway once. */
  lemma ServiceIsIdempotent(v: Json)
    ensures ServiceSanitized(ServiceSanitized(v)) == ServiceSanitized(v)
    ensures ServiceSanitized(Sanitized(v)) == Sanitized(v)
  {
    ServiceCleans(v);
    ServiceKeepsClean(ServiceSanitized(v));
    FirstPass(v);
    HalfIsControlFree(Sanitized(v));
    ServiceKeepsClean(Sanitized(v));
  }
}
