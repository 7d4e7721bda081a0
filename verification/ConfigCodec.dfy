/** The mask/encrypt codec for stored configurations: monitor adapters and SSO
    providers keep secrets as "enc:" + ciphertext inside a nested configuration,
    show them masked, and keep the stored ciphertext when a mask is written back. */
module ConfigCodec {
  import opened Wrappers

  datatype Value =
    | Str(s: string)
    | Null
    | Number(n: int)
    | Obj(fields: map<string, Value>)
    | Arr(items: seq<Value>)

  /** One of the two codecs: its secret keys, whether it recurses into lists, whether
      the prefix is stripped before a value is masked, and the cipher. */
  datatype Codec = Codec(secret: set<string>, lists: bool, strips: bool,
                         enc: string -> string, dec: string -> Option<string>)

  predicate IsSso(c: Codec) {
    !c.lists && c.strips && c.secret == {"password", "client_secret", "secret", "token"}
  }

  const PREFIX := "enc:"

  predicate Tagged(s: string) {
    |s| >= 4 && s[..4] == PREFIX
  }

  predicate Starred(s: string) {
    '*' in s
  }

  // ------------------------------------------------------------ masking

  /** `mask_secret`. */
  function MaskSecret(c: Codec, e: string): Value {
    if e == "" then Null else
      match c.dec(e)
      case None => Str("***")
      case Some(p) => if |p| <= 4 then Str("****") else Str(p[..2] + "******" + p[|p| - 2..])
  }

  /** The masked view of a value; a non-object list item is shown as it is. */
  function Mask(c: Codec, v: Value): Value {
    match v
    case Str(s) => if Tagged(s) then MaskSecret(c, if c.strips then s[4..] else s) else v
    case Obj(f) => Obj(map k | k in f :: Mask(c, f[k]))
    case Arr(xs) =>
      if c.lists then Arr(seq(|xs|, i requires 0 <= i < |xs| => if xs[i].Obj? then Mask(c, xs[i]) else xs[i])) else v
    case _ => v
  }

  /** Both short, or both longer with the same first two and the same last two characters. */
  predicate SameEnds(p: string, q: string) {
    || (|p| <= 4 && |q| <= 4)
    || (|p| > 4 && |q| > 4 && p[0] == q[0] && p[1] == q[1] && p[|p| - 2] == q[|q| - 2] && p[|p| - 1] == q[|q| - 1])
  }

  /** What a viewer cannot tell apart: two ciphertexts that both do not decipher, or whose
      plaintexts have the same ends. */
  predicate LookAlike(c: Codec, d: string, e: string) {
    && (d == "" <==> e == "")
    && (d != "" ==>
          match c.dec(d)
          case None => c.dec(e).None?
          case Some(p) => c.dec(e).Some? && SameEnds(p, c.dec(e).value))
  }

  lemma MaskTells(c: Codec, d: string, e: string)
    ensures MaskSecret(c, d) == MaskSecret(c, e) <==> LookAlike(c, d, e)
  {
    if d != "" && e != "" && c.dec(d).Some? && c.dec(e).Some? {
      var p, q := c.dec(d).value, c.dec(e).value;
      if |p| > 4 && |q| > 4 {
        var x, y := p[..2] + "******" + p[|p| - 2..], q[..2] + "******" + q[|q| - 2..];
        assert |x| == |y| == 10;
        assert x[0] == p[0] && x[1] == p[1] && x[8] == p[|p| - 2] && x[9] == p[|p| - 1];
        assert y[0] == q[0] && y[1] == q[1] && y[8] == q[|q| - 2] && y[9] == q[|q| - 1];
      }
    }
  }

  /** A long secret is shown as ten characters: its first two, six asterisks, its last two; a short
      one as four asterisks. */
  lemma MaskedLook(c: Codec, e: string)
    requires e != "" && c.dec(e).Some?
    ensures var p, m := c.dec(e).value, MaskSecret(c, e);
            && m.Str?
            && (|p| <= 4 ==> m.s == "****")
            && (|p| > 4 ==> |m.s| == 10 && m.s[..2] == p[..2] && m.s[8..] == p[|p| - 2..] &&
                            forall i :: 2 <= i < 8 ==> m.s[i] == '*')
  {
  }

  /** Two values of one shape: ciphertexts, keys and objects in lists stand in the same places. */
  ghost predicate SameShape(c: Codec, v: Value, w: Value)
    decreases v
  {
    match v
    case Str(s) => w.Str? && (Tagged(s) <==> Tagged(w.s))
    case Null => w.Null?
    case Number(_) => w.Number?
    case Obj(f) => w.Obj? && w.fields.Keys == f.Keys && forall k :: k in f ==> SameShape(c, f[k], w.fields[k])
    case Arr(xs) =>
      w.Arr? && (c.lists ==>
        |w.items| == |xs| && forall i :: 0 <= i < |xs| ==>
          (xs[i].Obj? <==> w.items[i].Obj?) && (xs[i].Obj? ==> SameShape(c, xs[i], w.items[i])))
  }

  /** Equal but for ciphertexts that look alike. */
  ghost predicate Alike(c: Codec, v: Value, w: Value)
    decreases v
  {
    match v
    case Str(s) =>
      if w.Str? && Tagged(s) && Tagged(w.s)
      then LookAlike(c, if c.strips then s[4..] else s, if c.strips then w.s[4..] else w.s) else v == w
    case Obj(f) => w.Obj? && w.fields.Keys == f.Keys && forall k :: k in f ==> Alike(c, f[k], w.fields[k])
    case Arr(xs) =>
      if c.lists then
        w.Arr? && |w.items| == |xs| && forall i :: 0 <= i < |xs| ==>
          if xs[i].Obj? then Alike(c, xs[i], w.items[i]) else xs[i] == w.items[i]
      else v == w
    case _ => v == w
  }

  /** The masked view tells exactly this much: over configurations of one shape it is the same if
      and only if they are equal but for secrets with the same ends. */
  lemma {:induction false} MaskHidesExactly(c: Codec, v: Value, w: Value)
    requires SameShape(c, v, w)
    ensures Mask(c, v) == Mask(c, w) <==> Alike(c, v, w)
    decreases v
  {
    match v
    case Str(s) =>
      if Tagged(s) { MaskTells(c, if c.strips then s[4..] else s, if c.strips then w.s[4..] else w.s); }
    case Obj(f) =>
      var m, n := Mask(c, v).fields, Mask(c, w).fields;
      assert m.Keys == n.Keys == f.Keys;
      forall k | k in f ensures m[k] == n[k] <==> Alike(c, f[k], w.fields[k]) {
        MaskHidesExactly(c, f[k], w.fields[k]);
      }
      assert (forall k :: k in f ==> m[k] == n[k]) <==> m == n;
    case Arr(xs) =>
      if c.lists { MaskHidesItems(c, v, w); }
    case _ =>
  }

  lemma {:induction false} MaskHidesItems(c: Codec, v: Value, w: Value)
    requires v.Arr? && c.lists && SameShape(c, v, w)
    ensures Mask(c, v) == Mask(c, w) <==> Alike(c, v, w)
    decreases v, 0
  {
    var xs, ys := v.items, w.items;
    var m, n := Mask(c, v).items, Mask(c, w).items;
    assert |m| == |n| == |xs|;
    forall i | 0 <= i < |xs|
      ensures m[i] == n[i] <==> if xs[i].Obj? then Alike(c, xs[i], ys[i]) else xs[i] == ys[i]
    {
      if xs[i].Obj? { MaskHidesExactly(c, xs[i], ys[i]); }
    }
    assert (forall i :: 0 <= i < |xs| ==> m[i] == n[i]) <==> m == n;
  }

  // ------------------------------------------------------------ encrypting

  function FieldsOf(v: Option<Value>): map<string, Value> {
    if v.Some? && v.value.Obj? then v.value.fields else map[]
  }

  function ItemsOf(v: Option<Value>): seq<Value> {
    if v.Some? && v.value.Arr? then v.value.items else []
  }

  function At(xs: seq<Value>, i: nat): Option<Value> {
    if i < |xs| then Some(xs[i]) else None
  }

  function Get(m: map<string, Value>, k: string): Option<Value> {
    if k in m then Some(m[k]) else None
  }

  /** What a submitted value under key `k` becomes, given what is stored there. */
  function EncryptField(c: Codec, k: string, v: Value, stored: Option<Value>): Value
    decreases v, 1
  {
    if k in c.secret && v.Str? then
      if Tagged(v.s) || Starred(v.s) then (if stored.Some? then stored.value else v)
      else Str(PREFIX + c.enc(v.s))
    else match v
      case Obj(_) => EncryptObj(c, v, FieldsOf(stored))
      case Arr(xs) =>
        if c.lists then
          Arr(seq(|xs|, i requires 0 <= i < |xs| =>
                    if xs[i].Obj? then EncryptObj(c, xs[i], FieldsOf(At(ItemsOf(stored), i))) else xs[i]))
        else v
      case _ => v
  }

  /** `_encrypt_config_secrets`: stored fields that were not submitted are kept. */
  function EncryptObj(c: Codec, v: Value, stored: map<string, Value>): Value
    requires v.Obj?
    decreases v, 0
  {
    Obj(map k | k in stored.Keys + v.fields.Keys ::
          if k in v.fields then EncryptField(c, k, v.fields[k], Get(stored, k)) else stored[k])
  }

  /** `_decrypt_config_val`: an undecipherable value becomes the empty string. */
  function Decrypt(c: Codec, v: Value): Value {
    match v
    case Str(s) => if Tagged(s) then (match c.dec(s[4..]) case Some(p) => Str(p) case None => Str("")) else v
    case Obj(f) => Obj(map k | k in f :: Decrypt(c, f[k]))
    case _ => v
  }

  // ------------------------------------------------------------ writing the mask back

  /** Under a secret key only ciphertext or a masked string; elsewhere no ciphertext.
      For a codec that strips the prefix, a bare prefix does not count as ciphertext. */
  ghost predicate Stable(c: Codec, k: string, v: Value)
    decreases v
  {
    match v
    case Str(s) =>
      if k in c.secret then (if Tagged(s) then !(c.strips && s == PREFIX) else Starred(s)) else !Tagged(s)
    case Obj(f) => forall j :: j in f ==> Stable(c, j, f[j])
    case Arr(xs) => c.lists ==> forall i :: 0 <= i < |xs| && xs[i].Obj? ==> Stable(c, k, xs[i])
    case _ => true
  }

  lemma MaskedIsStarred(c: Codec, e: string)
    ensures e != "" ==> MaskSecret(c, e).Str? && Starred(MaskSecret(c, e).s) && !Tagged(MaskSecret(c, e).s)
    ensures e == "" ==> MaskSecret(c, e) == Null
  {
    var m := MaskSecret(c, e);
    if m.Str? {
      if c.dec(e).Some? && |c.dec(e).value| > 4 {
        var p := c.dec(e).value;
        assert m.s[2] == '*';
        assert PREFIX[2] == 'c';
      } else {
        assert m.s[0] == '*';
      }
    }
  }

  lemma {:induction false} WriteBackString(c: Codec, k: string, s: string)
    ensures EncryptField(c, k, Mask(c, Str(s)), Some(Str(s))) == Str(s) <==> Stable(c, k, Str(s))
  {
    if Tagged(s) {
      var e := if c.strips then s[4..] else s;
      MaskedIsStarred(c, e);
      assert s == PREFIX + s[4..];
      assert e == "" <==> c.strips && s == PREFIX;
    } else {
      assert Tagged(PREFIX + c.enc(s));
    }
  }

  /** Writing the masked view of a value back over it leaves it unchanged exactly when
      it is stable. */
  lemma {:induction false} WriteBack(c: Codec, k: string, v: Value)
    ensures EncryptField(c, k, Mask(c, v), Some(v)) == v <==> Stable(c, k, v)
    decreases v
  {
    match v
    case Str(s) => WriteBackString(c, k, s);
    case Obj(f) => WriteBackObject(c, k, v);
    case Arr(xs) => WriteBackList(c, k, v);
    case _ =>
  }

  lemma {:induction false} WriteBackObject(c: Codec, k: string, v: Value)
    requires v.Obj?
    ensures EncryptObj(c, Mask(c, v), v.fields) == v <==> Stable(c, k, v)
    decreases v, 0
  {
    var f, m := v.fields, Mask(c, v).fields;
    var r := EncryptObj(c, Mask(c, v), f).fields;
    assert r.Keys == f.Keys;
    forall j | j in f ensures r[j] == f[j] <==> Stable(c, j, f[j]) {
      WriteBack(c, j, f[j]);
      assert r[j] == EncryptField(c, j, Mask(c, f[j]), Some(f[j]));
    }
    assert (forall j :: j in f ==> r[j] == f[j]) <==> r == f;
  }

  lemma {:induction false} WriteBackList(c: Codec, k: string, v: Value)
    requires v.Arr?
    ensures EncryptField(c, k, Mask(c, v), Some(v)) == v <==> Stable(c, k, v)
    decreases v, 0
  {
    if c.lists {
      var xs := v.items;
      var r := EncryptField(c, k, Mask(c, v), Some(v)).items;
      assert |r| == |xs|;
      forall i | 0 <= i < |xs|
        ensures r[i] == xs[i] <==> (xs[i].Obj? ==> Stable(c, k, xs[i]))
      {
        if xs[i].Obj? {
          WriteBackObject(c, k, xs[i]);
          assert r[i] == EncryptObj(c, Mask(c, xs[i]), xs[i].fields);
        }
      }
      if Stable(c, k, v) {
        assert r == xs;
      }
    }
  }

  /** The law of the codec over any nested configuration: echoing the masked view keeps
      the stored configuration if and only if it is stable. */
  lemma EchoedMaskKeepsConfig(c: Codec, stored: map<string, Value>)
    ensures EncryptObj(c, Mask(c, Obj(stored)), stored) == Obj(stored) <==>
            forall k :: k in stored ==> Stable(c, k, stored[k])
  {
    WriteBackObject(c, "", Obj(stored));
  }

  // ------------------------------------------------------------ stability of what is stored

  /** A submission with no ciphertext outside secret keys and no bare prefix. */
  ghost predicate Clean(c: Codec, k: string, v: Value)
    decreases v
  {
    match v
    case Str(s) => if k in c.secret then s != PREFIX else !Tagged(s)
    case Obj(f) => forall j :: j in f ==> Clean(c, j, f[j])
    case Arr(xs) => c.lists ==> forall i :: 0 <= i < |xs| && xs[i].Obj? ==> Clean(c, k, xs[i])
    case _ => true
  }

  /** What AES-GCM provides: decryption inverts encryption, ciphertext is never empty,
      and a plaintext is no longer than its ciphertext. */
  ghost predicate RealCipher(c: Codec) {
    && (forall p :: c.dec(c.enc(p)) == Some(p) && c.enc(p) != "")
    && (forall x :: c.dec(x).Some? ==> |c.dec(x).value| <= |x|)
  }

  lemma SealedTag(c: Codec, s: string)
    requires RealCipher(c)
    ensures Tagged(PREFIX + c.enc(s)) && PREFIX + c.enc(s) != PREFIX && (PREFIX + c.enc(s))[4..] == c.enc(s)
  {
    assert |PREFIX + c.enc(s)| > 4;
  }

  lemma {:induction false} EncryptFieldStable(c: Codec, k: string, v: Value, stored: Option<Value>)
    requires RealCipher(c) && Clean(c, k, v) && (stored.Some? ==> Stable(c, k, stored.value))
    ensures Stable(c, k, EncryptField(c, k, v, stored))
    decreases v, 1
  {
    match v
    case Str(s) => SealedTag(c, s);
    case Obj(f) =>
      EncryptStable(c, k, v, FieldsOf(stored));
    case Arr(xs) =>
      if c.lists {
        var r := EncryptField(c, k, v, stored).items;
        forall i | 0 <= i < |r| && r[i].Obj? ensures Stable(c, k, r[i]) {
          EncryptStable(c, k, xs[i], FieldsOf(At(ItemsOf(stored), i)));
        }
      }
    case _ =>
  }

  /** Writing a clean submission over a stable configuration gives a stable one. */
  lemma {:induction false} EncryptStable(c: Codec, k: string, v: Value, stored: map<string, Value>)
    requires RealCipher(c) && v.Obj? && Clean(c, k, v) && Stable(c, k, Obj(stored))
    ensures Stable(c, k, EncryptObj(c, v, stored))
    decreases v, 0
  {
    var r := EncryptObj(c, v, stored).fields;
    assert Obj(stored).fields == stored;
    forall j | j in r ensures Stable(c, j, r[j]) {
      if j in v.fields {
        EncryptFieldStable(c, j, v.fields[j], Get(stored, j));
      }
    }
    assert EncryptObj(c, v, stored) == Obj(r);
  }

  /** The configuration after a history of submissions, starting from nothing. */
  ghost function Stored(c: Codec, writes: seq<Value>): map<string, Value>
    requires forall i :: 0 <= i < |writes| ==> writes[i].Obj?
  {
    if writes == [] then map[]
    else EncryptObj(c, writes[|writes| - 1], Stored(c, writes[..|writes| - 1])).fields
  }

  /** Whatever clean submissions came before, echoing the masked view changes nothing. */
  lemma {:induction false} EchoAfterAnyHistory(c: Codec, writes: seq<Value>)
    requires RealCipher(c)
    requires forall i :: 0 <= i < |writes| ==> writes[i].Obj? && Clean(c, "", writes[i])
    ensures var s := Stored(c, writes);
            Stable(c, "", Obj(s)) && EncryptObj(c, Mask(c, Obj(s)), s) == Obj(s)
  {
    if writes != [] {
      var init := writes[..|writes| - 1];
      EchoAfterAnyHistory(c, init);
      EncryptStable(c, "", writes[|writes| - 1], Stored(c, init));
    }
    WriteBackObject(c, "", Obj(Stored(c, writes)));
  }

  // ------------------------------------------------------------ decrypt after encrypt (SSO)

  /** No string in an object position begins with the prefix. */
  ghost predicate Untagged(v: Value) {
    match v
    case Str(s) => !Tagged(s)
    case Obj(f) => forall j :: j in f ==> Untagged(f[j])
    case _ => true
  }

  lemma {:induction false} DecryptTagged(c: Codec, s: string)
    requires RealCipher(c) && Tagged(s)
    ensures Decrypt(c, Str(s)) != Str(s)
  {
    assert s == PREFIX + s[4..];
  }

  lemma {:induction false} RoundTripField(c: Codec, k: string, v: Value)
    requires IsSso(c) && RealCipher(c)
    ensures Decrypt(c, EncryptField(c, k, v, None)) == v <==> Untagged(v)
    decreases v, 1
  {
    match v
    case Str(s) =>
      if Tagged(s) {
        DecryptTagged(c, s);
      } else if k in c.secret && !Starred(s) {
        SealedTag(c, s);
      }
    case Obj(f) => RoundTrip(c, v);
    case _ =>
  }

  /** For the SSO codec, decrypting a freshly encrypted configuration gives it back if
      and only if no string of it begins with the prefix. */
  lemma {:induction false} RoundTrip(c: Codec, v: Value)
    requires IsSso(c) && RealCipher(c) && v.Obj?
    ensures Decrypt(c, EncryptObj(c, v, map[])) == v <==> Untagged(v)
    decreases v, 0
  {
    var f := v.fields;
    var r := Decrypt(c, EncryptObj(c, v, map[])).fields;
    assert r.Keys == f.Keys;
    forall j | j in f ensures r[j] == f[j] <==> Untagged(f[j]) {
      RoundTripField(c, j, f[j]);
      assert r[j] == Decrypt(c, EncryptField(c, j, f[j], None));
    }
    if Untagged(v) {
      assert r == f;
    }
  }

  /** The value at a path of field names. */
  function Under(v: Value, keys: seq<string>): Option<Value>
    decreases |keys|
  {
    if keys == [] then Some(v)
    else if v.Obj? && keys[0] in v.fields then Under(v.fields[keys[0]], keys[1..]) else None
  }

  /** Decryption acts on each string by itself: no ciphertext comes out, an undecipherable one is
      empty, and whatever else is in the configuration is found where it was. */
  lemma {:induction false} DecryptIsPointwise(c: Codec, v: Value, keys: seq<string>)
    ensures var was, now := Under(v, keys), Under(Decrypt(c, v), keys);
            && (was.Some? <==> now.Some?)
            && (was.Some? && !was.value.Obj? ==>
                  var secret := was.value.Str? && Tagged(was.value.s);
                  var plain := if secret then c.dec(was.value.s[4..]) else None;
                  if !secret then now == was else now == Some(Str(if plain.Some? then plain.value else "")))
    decreases |keys|
  {
    if keys != [] && v.Obj? && keys[0] in v.fields {
      DecryptIsPointwise(c, v.fields[keys[0]], keys[1..]);
      assert Decrypt(c, v).fields[keys[0]] == Decrypt(c, v.fields[keys[0]]);
    }
  }

  // ------------------------------------------------------------ secrets at rest

  /** The prefix followed by something the cipher produced. */
  ghost predicate Ciphertext(c: Codec, s: string) {
    exists p :: s == PREFIX + c.enc(p)
  }

  /**
   * No secret is readable.  Whatever lies below a secret key, at any depth and inside lists and
   * objects, is secret (`under`): every string there is ciphertext and there is no number.
   */
  ghost predicate Sealed(c: Codec, under: bool, v: Value)
    decreases v
  {
    match v
    case Str(s) => under ==> Ciphertext(c, s)
    case Number(_) => !under
    case Null => true
    case Obj(f) => forall j :: j in f ==> Sealed(c, under || j in c.secret, f[j])
    case Arr(xs) => forall i :: 0 <= i < |xs| ==> Sealed(c, under, xs[i])
  }

  /**
   * What a submission must look like for its secrets to end up unreadable.  Only a string
   * directly under a secret key is ever encrypted, and only if it is neither starred nor
   * prefixed; otherwise what is stored under the key is kept, or else the string itself.
   * Everything else the codec copies, so it must be sealed as it is.
   */
  ghost predicate Sealable(c: Codec, under: bool, v: Value, stored: map<string, Value>)
    requires v.Obj?
    decreases v, 0
  {
    forall j :: j in v.fields ==> FieldSealable(c, under, j, v.fields[j], Get(stored, j))
  }

  ghost predicate FieldSealable(c: Codec, under: bool, k: string, v: Value, stored: Option<Value>)
    decreases v, 1
  {
    var secret := under || k in c.secret;
    match v
    case Str(s) =>
      if k in c.secret then (!Tagged(s) && !Starred(s)) || stored.Some? || Ciphertext(c, s) else Sealed(c, under, v)
    case Obj(f) => Sealable(c, secret, v, FieldsOf(stored))
    case Arr(xs) =>
      forall i :: 0 <= i < |xs| ==>
        if c.lists && xs[i].Obj? then Sealable(c, secret, xs[i], FieldsOf(At(ItemsOf(stored), i)))
        else Sealed(c, secret, xs[i])
    case _ => Sealed(c, secret, v)
  }

  lemma {:induction false} SealsField(c: Codec, under: bool, k: string, v: Value, stored: Option<Value>)
    requires stored.Some? ==> Sealed(c, under || k in c.secret, stored.value)
    ensures Sealed(c, under || k in c.secret, EncryptField(c, k, v, stored)) <==> FieldSealable(c, under, k, v, stored)
    decreases v, 1
  {
    match v
    case Str(s) =>
      if k in c.secret && !Tagged(s) && !Starred(s) { assert Ciphertext(c, PREFIX + c.enc(s)); }
    case Obj(f) =>
      StoredFieldsSealed(c, under || k in c.secret, stored);
      SealsExactly(c, under || k in c.secret, v, FieldsOf(stored));
    case Arr(xs) => SealsItems(c, under, k, v, stored);
    case _ =>
  }

  lemma StoredFieldsSealed(c: Codec, under: bool, stored: Option<Value>)
    requires stored.Some? ==> Sealed(c, under, stored.value)
    ensures Sealed(c, under, Obj(FieldsOf(stored)))
  {
  }

  lemma {:induction false} SealsItems(c: Codec, under: bool, k: string, v: Value, stored: Option<Value>)
    requires v.Arr? && (stored.Some? ==> Sealed(c, under || k in c.secret, stored.value))
    ensures Sealed(c, under || k in c.secret, EncryptField(c, k, v, stored)) <==> FieldSealable(c, under, k, v, stored)
    decreases v, 0
  {
    var xs, secret := v.items, under || k in c.secret;
    var r := EncryptField(c, k, v, stored).items;
    assert |r| == |xs|;
    forall i | 0 <= i < |xs|
      ensures Sealed(c, secret, r[i]) <==>
                if c.lists && xs[i].Obj? then Sealable(c, secret, xs[i], FieldsOf(At(ItemsOf(stored), i)))
                else Sealed(c, secret, xs[i])
    {
      if c.lists && xs[i].Obj? {
        var nested := At(ItemsOf(stored), i);
        StoredFieldsSealed(c, secret, nested);
        SealsExactly(c, secret, xs[i], FieldsOf(nested));
        assert r[i] == EncryptObj(c, xs[i], FieldsOf(nested));
      } else {
        assert r[i] == xs[i];
      }
    }
  }

  /**
   * Writing a submission over a sealed configuration leaves it sealed if and only if the
   * submission is sealable; with `under` false for a whole configuration.
   */
  lemma {:induction false} SealsExactly(c: Codec, under: bool, v: Value, stored: map<string, Value>)
    requires v.Obj? && Sealed(c, under, Obj(stored))
    ensures Sealed(c, under, EncryptObj(c, v, stored)) <==> Sealable(c, under, v, stored)
    decreases v, 0
  {
    var f := v.fields;
    var r := EncryptObj(c, v, stored).fields;
    assert EncryptObj(c, v, stored) == Obj(r) && Obj(stored).fields == stored;
    forall j | j in f
      ensures Sealed(c, under || j in c.secret, r[j]) <==> FieldSealable(c, under, j, f[j], Get(stored, j))
    {
      SealsField(c, under, j, f[j], Get(stored, j));
      assert r[j] == EncryptField(c, j, f[j], Get(stored, j));
    }
    forall j | j in r && j !in f ensures Sealed(c, under || j in c.secret, r[j]) {
      assert r[j] == stored[j];
    }
  }

  // ------------------------------------------------------------ what an update does

  /** A step into a configuration: a field of an object, or an object in a list. */
  datatype Place = Field(k: string) | Item(i: nat)

  /** The value at a path, through whatever the codec descends into. */
  ghost function Lookup(c: Codec, v: Value, path: seq<Place>): Option<Value>
    decreases |path|
  {
    if path == [] then Some(v)
    else match path[0]
      case Field(k) => if v.Obj? && k in v.fields then Lookup(c, v.fields[k], path[1..]) else None
      case Item(i) =>
        if c.lists && v.Arr? && i < |v.items| && v.items[i].Obj? then Lookup(c, v.items[i], path[1..]) else None
  }

  ghost function LookupIn(c: Codec, v: Option<Value>, path: seq<Place>): Option<Value> {
    if v.Some? then Lookup(c, v.value, path) else None
  }

  /** A value that holds nothing the codec descends into. */
  ghost predicate Leaf(c: Codec, v: Value) {
    !v.Obj? && (v.Arr? && c.lists ==> forall i :: 0 <= i < |v.items| ==> !v.items[i].Obj?)
  }

  /** The path leaves the value at an object that lacks the next field. */
  ghost predicate Omitted(c: Codec, v: Value, path: seq<Place>)
    decreases |path|
  {
    path != [] &&
    match path[0]
    case Field(k) => v.Obj? && (k !in v.fields || Omitted(c, v.fields[k], path[1..]))
    case Item(i) => c.lists && v.Arr? && i < |v.items| && v.items[i].Obj? && Omitted(c, v.items[i], path[1..])
  }

  ghost function KeyAt(k: string, path: seq<Place>): string {
    if path == [] then k else if path[|path| - 1].Field? then path[|path| - 1].k else ""
  }

  /** A leaf submitted under key `k`: a new secret is encrypted, a masked or tagged one keeps what
      was there, and anything else is taken as it is. */
  ghost predicate Taken(c: Codec, k: string, x: Value, was: Option<Value>, now: Option<Value>) {
    if !(k in c.secret && x.Str?) then now == Some(x)
    else if !Tagged(x.s) && !Starred(x.s) then now == Some(Str(PREFIX + c.enc(x.s)))
    else now == if was.Some? then was else Some(x)
  }

  /** A value without objects in it is taken as it is, unless it is a string under a secret key. */
  lemma LeafTaken(c: Codec, k: string, v: Value, stored: Option<Value>)
    requires Leaf(c, v)
    ensures Taken(c, k, v, stored, Some(EncryptField(c, k, v, stored)))
  {
    if v.Arr? && c.lists { assert EncryptField(c, k, v, stored).items == v.items; }
  }

  lemma {:induction false} FieldIsPointwise(c: Codec, k: string, v: Value, stored: Option<Value>, path: seq<Place>)
    ensures var x, was := Lookup(c, v, path), LookupIn(c, stored, path);
            var now := Lookup(c, EncryptField(c, k, v, stored), path);
            && (x.Some? && Leaf(c, x.value) ==> Taken(c, KeyAt(k, path), x.value, was, now))
            && (Omitted(c, v, path) ==> now == was)
    decreases |path|
  {
    if path == [] {
      if Leaf(c, v) { LeafTaken(c, k, v, stored); }
    } else if path[0].Field? {
      if v.Obj? { MemberIsPointwise(c, k, v, stored, path); }
    } else if c.lists && v.Arr? && path[0].i < |v.items| && v.items[path[0].i].Obj? {
      if |path| > 1 {
        ItemIsPointwise(c, k, v, stored, path);
      } else {
        assert path[1..] == [] && !Omitted(c, v.items[path[0].i], path[1..]);
      }
    }
  }

  lemma {:induction false} MemberIsPointwise(c: Codec, k: string, v: Value, stored: Option<Value>, path: seq<Place>)
    requires |path| > 0 && path[0].Field? && v.Obj?
    ensures var x, was := Lookup(c, v, path), LookupIn(c, stored, path);
            var now := Lookup(c, EncryptField(c, k, v, stored), path);
            && (x.Some? && Leaf(c, x.value) ==> Taken(c, KeyAt(k, path), x.value, was, now))
            && (Omitted(c, v, path) ==> now == was)
    decreases |path|, 0
  {
    var j, rest := path[0].k, path[1..];
    var below := Get(FieldsOf(stored), j);
    var r := EncryptField(c, k, v, stored);
    assert r == EncryptObj(c, v, FieldsOf(stored)) && r.Obj?;
    assert LookupIn(c, stored, path) == LookupIn(c, below, rest);
    if j in v.fields {
      FieldIsPointwise(c, j, v.fields[j], below, rest);
      assert r.fields[j] == EncryptField(c, j, v.fields[j], below);
      assert |rest| > 0 ==> path[|path| - 1] == rest[|rest| - 1];
    }
  }

  lemma {:induction false} ItemIsPointwise(c: Codec, k: string, v: Value, stored: Option<Value>, path: seq<Place>)
    requires |path| > 1 && path[0].Item? && c.lists && v.Arr? && path[0].i < |v.items| && v.items[path[0].i].Obj?
    ensures var x, was := Lookup(c, v, path), LookupIn(c, stored, path);
            var now := Lookup(c, EncryptField(c, k, v, stored), path);
            && (x.Some? && Leaf(c, x.value) ==> Taken(c, KeyAt(k, path), x.value, was, now))
            && (Omitted(c, v, path) ==> now == was)
    decreases |path|, 0
  {
    var item, below, rest := v.items[path[0].i], At(ItemsOf(stored), path[0].i), path[1..];
    FieldIsPointwise(c, "", item, below, rest);
    assert EncryptField(c, k, v, stored).items[path[0].i] == EncryptField(c, "", item, below);
    assert path[|path| - 1] == rest[|rest| - 1];
    if rest[0].Field? && !(below.Some? && below.value.Obj?) { assert LookupIn(c, below, rest) == None; }
  }

  /**
   * An update acts pointwise, at any depth: each submitted leaf is taken under its own key, and
   * every path the submission leaves out at some object keeps what is stored there.
   */
  lemma UpdateIsPointwise(c: Codec, v: Value, stored: map<string, Value>, path: seq<Place>)
    requires v.Obj?
    ensures var x, was := Lookup(c, v, path), Lookup(c, Obj(stored), path);
            var now := Lookup(c, EncryptObj(c, v, stored), path);
            && (x.Some? && Leaf(c, x.value) ==> Taken(c, KeyAt("", path), x.value, was, now))
            && (Omitted(c, v, path) ==> now == was)
  {
    FieldIsPointwise(c, "", v, Some(Obj(stored)), path);
    assert EncryptField(c, "", v, Some(Obj(stored))) == EncryptObj(c, v, stored);
  }

  // ------------------------------------------------------------ what stays readable

  /** A value of which the codec encrypts nothing when it is submitted for the first time. */
  ghost predicate Inert(c: Codec, v: Value)
    decreases v, 0
  {
    match v
    case Obj(f) => forall j :: j in f ==> InertField(c, j, f[j])
    case Arr(xs) => c.lists ==> forall i :: 0 <= i < |xs| && xs[i].Obj? ==> Inert(c, xs[i])
    case _ => true
  }

  ghost predicate InertField(c: Codec, k: string, v: Value)
    decreases v, 1
  {
    if k in c.secret && v.Str? then Starred(v.s) || Tagged(v.s) else Inert(c, v)
  }

  lemma {:induction false} InertFieldKept(c: Codec, k: string, v: Value)
    requires InertField(c, k, v)
    ensures EncryptField(c, k, v, None) == v
    decreases v, 1
  {
    match v
    case Obj(_) => InertKept(c, v);
    case Arr(xs) =>
      if c.lists {
        var r := EncryptField(c, k, v, None).items;
        forall i | 0 <= i < |xs| ensures r[i] == xs[i] {
          if xs[i].Obj? {
            InertKept(c, xs[i]);
            assert r[i] == EncryptObj(c, xs[i], map[]);
          }
        }
        assert r == xs;
      }
    case _ =>
  }

  lemma {:induction false} InertKept(c: Codec, v: Value)
    requires v.Obj? && Inert(c, v)
    ensures EncryptObj(c, v, map[]) == v
    decreases v, 0
  {
    var r := EncryptObj(c, v, map[]).fields;
    forall j | j in v.fields ensures r[j] == v.fields[j] {
      InertFieldKept(c, j, v.fields[j]);
      assert r[j] == EncryptField(c, j, v.fields[j], None);
    }
    assert r == v.fields;
  }

  /** An inert value under a secret key is stored as it was submitted, so it stays readable
      unless it is sealed to begin with. */
  lemma PlaintextStored(c: Codec, k: string, v: Value)
    requires k in c.secret && InertField(c, k, v)
    ensures EncryptObj(c, Obj(map[k := v]), map[]) == Obj(map[k := v])
    ensures Sealed(c, false, EncryptObj(c, Obj(map[k := v]), map[])) <==> Sealed(c, true, v)
  {
    var o := Obj(map[k := v]);
    assert o.fields[k] == v;
    InertKept(c, o);
  }

  /** Each way of staying readable: a starred or prefixed string that is no ciphertext, a number, a
      string in a list, and a string under an ordinary key of an object. */
  lemma ReadableShapes(c: Codec, k: string, j: string, s: string, n: int)
    requires k in c.secret && j !in c.secret && !Ciphertext(c, s)
    ensures Starred(s) || Tagged(s) ==> !Sealed(c, false, EncryptObj(c, Obj(map[k := Str(s)]), map[]))
    ensures !Sealed(c, false, EncryptObj(c, Obj(map[k := Number(n)]), map[]))
    ensures !Sealed(c, false, EncryptObj(c, Obj(map[k := Arr([Str(s)])]), map[]))
    ensures !Sealed(c, false, EncryptObj(c, Obj(map[k := Obj(map[j := Str(s)])]), map[]))
  {
    if Starred(s) || Tagged(s) { PlaintextStored(c, k, Str(s)); }
    PlaintextStored(c, k, Number(n));
    var list, nested := Arr([Str(s)]), Obj(map[j := Str(s)]);
    assert list.items[0] == Str(s) && !Sealed(c, true, list.items[0]);
    PlaintextStored(c, k, list);
    assert nested.fields[j] == Str(s) && !Sealed(c, true, nested.fields[j]);
    assert Inert(c, nested) by { assert InertField(c, j, nested.fields[j]); }
    PlaintextStored(c, k, nested);
  }

  // ------------------------------------------------------------ the service code

  /** `_mask_adapter_config` and `_mask_config`: the loop that fills `out`. */
  method MaskConfig(c: Codec, config: Value) returns (out: map<string, Value>)
    requires config.Obj?
    ensures Obj(out) == Mask(c, config)
    decreases config
  {
    out := map[];
    var f := config.fields;
    var rest := f.Keys;
    while rest != {}
      invariant rest <= f.Keys && out.Keys == f.Keys - rest
      invariant forall k :: k in out ==> out[k] == Mask(c, f[k])
      decreases rest
    {
      var key :| key in rest;
      var val := f[key];
      if val.Str? && Tagged(val.s) {
        out := out[key := MaskSecret(c, if c.strips then val.s[4..] else val.s)];
      } else if val.Obj? {
        var nested := MaskConfig(c, val);
        out := out[key := Obj(nested)];
      } else if val.Arr? && c.lists {
        var items := MaskItems(c, val);
        out := out[key := Arr(items)];
      } else {
        out := out[key := val];
      }
      rest := rest - {key};
    }
    assert out == map k | k in f :: Mask(c, f[k]);
  }

  method MaskItems(c: Codec, list: Value) returns (out: seq<Value>)
    requires list.Arr? && c.lists
    ensures Arr(out) == Mask(c, list)
    decreases list
  {
    out := [];
    for i := 0 to |list.items|
      invariant |out| == i
      invariant forall j :: 0 <= j < i ==> out[j] == if list.items[j].Obj? then Mask(c, list.items[j]) else list.items[j]
    {
      var item := list.items[i];
      if item.Obj? {
        var nested := MaskConfig(c, item);
        item := Obj(nested);
      }
      out := out + [item];
    }
  }

  /** `_encrypt_config_secrets`: the loop that updates `merged`. */
  method EncryptConfig(c: Codec, config: Value, existing: map<string, Value>) returns (merged: map<string, Value>)
    requires config.Obj?
    ensures Obj(merged) == EncryptObj(c, config, existing)
    decreases config, 1
  {
    merged := existing;
    var f := config.fields;
    var rest := f.Keys;
    while rest != {}
      invariant rest <= f.Keys && merged.Keys == existing.Keys + (f.Keys - rest)
      invariant forall k :: k in merged && (k !in f || k in rest) ==> k in existing && merged[k] == existing[k]
      invariant forall k :: k in f && k !in rest ==> merged[k] == EncryptField(c, k, f[k], Get(existing, k))
      decreases rest
    {
      var key :| key in rest;
      var val := f[key];
      assert Get(merged, key) == Get(existing, key);
      var sealed := EncryptEntry(c, key, val, Get(merged, key));
      merged := merged[key := sealed];
      rest := rest - {key};
    }
    assert merged == EncryptObj(c, config, existing).fields;
  }

  /** The body of that loop: the new value of one key. */
  method EncryptEntry(c: Codec, key: string, val: Value, stored: Option<Value>) returns (r: Value)
    ensures r == EncryptField(c, key, val, stored)
    decreases val, 2
  {
    if key in c.secret && val.Str? {
      if Tagged(val.s) || Starred(val.s) {
        r := if stored.Some? then stored.value else val;
      } else {
        r := Str(PREFIX + c.enc(val.s));
      }
    } else if val.Obj? {
      var nested := EncryptConfig(c, val, FieldsOf(stored));
      r := Obj(nested);
    } else if val.Arr? && c.lists {
      var items := EncryptItems(c, key, val, stored);
      r := Arr(items);
    } else {
      r := val;
    }
  }

  method EncryptItems(c: Codec, key: string, list: Value, stored: Option<Value>) returns (out: seq<Value>)
    requires list.Arr? && c.lists
    ensures Arr(out) == EncryptField(c, key, list, stored)
    decreases list, 1
  {
    var prev := ItemsOf(stored);
    out := [];
    for i := 0 to |list.items|
      invariant |out| == i
      invariant forall j :: 0 <= j < i ==>
        out[j] == if list.items[j].Obj? then EncryptObj(c, list.items[j], FieldsOf(At(prev, j))) else list.items[j]
    {
      var item := list.items[i];
      if item.Obj? {
        var nested := EncryptConfig(c, item, FieldsOf(At(prev, i)));
        item := Obj(nested);
      }
      out := out + [item];
    }
  }

  /** `_decrypt_config_val`: the loop that fills `out`. */
  method DecryptConfig(c: Codec, config: Value) returns (out: map<string, Value>)
    requires config.Obj?
    ensures Obj(out) == Decrypt(c, config)
    decreases config
  {
    out := map[];
    var f := config.fields;
    var rest := f.Keys;
    while rest != {}
      invariant rest <= f.Keys && out.Keys == f.Keys - rest
      invariant forall k :: k in out ==> out[k] == Decrypt(c, f[k])
      decreases rest
    {
      var key :| key in rest;
      var val := f[key];
      if val.Str? && Tagged(val.s) {
        var plain := c.dec(val.s[4..]);
        out := out[key := if plain.Some? then Str(plain.value) else Str("")];
      } else if val.Obj? {
        var nested := DecryptConfig(c, val);
        out := out[key := Obj(nested)];
      } else {
        out := out[key := val];
      }
      rest := rest - {key};
    }
    assert out == map k | k in f :: Decrypt(c, f[k]);
  }
}
