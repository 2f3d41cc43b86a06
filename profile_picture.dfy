/**
 * Profile pictures kept in the browser's key-value storage under
 * `profile_picture_<userId>`: saving (with one clean-up and retry when the
 * storage is full), reading, removing, the clean-up that keeps the last
 * ten pictures, and the image file check.
 */
module ProfilePicture {
  import opened Wrappers
  import opened Text

  const Prefix := "profile_picture_"

  /** 2 MB, the largest accepted image. */
  const MaxSize := 2 * 1024 * 1024

  const ValidTypes := ["image/jpeg", "image/jpg", "image/png", "image/gif", "image/webp"]

  // ------------------------------------------------------------ file check

  datatype ImageCheck = ImageCheck(valid: bool, error: Option<string>)

  /** `validateImageFile`: the type must be one of the five image types,
      then the size at most 2 MB. */
  function ValidateImageFile(fileType: string, size: nat): (r: ImageCheck)
    ensures r.valid <==> fileType in ValidTypes && size <= 2097152
    ensures r.valid <==> r.error.None?
    ensures fileType !in ValidTypes ==>
      r.error == Some("Invalid file type. Please upload a JPEG, PNG, GIF, or WebP image.")
    ensures fileType in ValidTypes && size > 2097152 ==>
      r.error == Some("File size too large. Please upload an image smaller than 2MB.")
  {
    if fileType !in ValidTypes then
      ImageCheck(false, Some("Invalid file type. Please upload a JPEG, PNG, GIF, or WebP image."))
    else if size > MaxSize then
      ImageCheck(false, Some("File size too large. Please upload an image smaller than 2MB."))
    else
      ImageCheck(true, None)
  }

  // ------------------------------------------------------------------ keys

  predicate IsPictureKey(k: string) {
    |Prefix| <= |k| && k[..|Prefix|] == Prefix
  }

  /** `${STORAGE_PREFIX}${userId}`. */
  function KeyFor(userId: int): (k: string)
    ensures IsPictureKey(k)
  {
    Prefix + IntToDecimal(userId)
  }

  /** Different users never share a key. */
  lemma KeyForInjective(a: int, b: int)
    requires a != b
    ensures KeyFor(a) != KeyFor(b)
  {
    IntToDecimalInjective(a, b);
  }

  predicate Distinct(s: seq<string>) {
    forall i, j | 0 <= i < j < |s| :: s[i] != s[j]
  }

  /** `s` without `x`, in order. */
  function Without(s: seq<string>, x: string): (r: seq<string>)
    ensures |r| <= |s|
    ensures forall y :: y in r <==> y in s && y != x
  {
    if s == [] then []
    else
      var init := Without(s[..|s| - 1], x);
      assert forall y :: y in s <==> y in s[..|s| - 1] || y == s[|s| - 1];
      if s[|s| - 1] == x then init else init + [s[|s| - 1]]
  }

  lemma {:induction false} WithoutDistinct(s: seq<string>, x: string)
    requires Distinct(s)
    ensures Distinct(Without(s, x))
  {
    if s != [] {
      var init := s[..|s| - 1];
      var last := s[|s| - 1];
      WithoutDistinct(init, x);
      assert Distinct(Without(init, x));
      assert last !in init by {
        forall i | 0 <= i < |init| ensures init[i] != last {
          assert init[i] == s[i];
        }
      }
      assert last !in Without(init, x);
    }
  }

  lemma {:induction false} WithoutAbsent(s: seq<string>, x: string)
    requires x !in s
    ensures Without(s, x) == s
  {
    if s != [] {
      WithoutAbsent(s[..|s| - 1], x);
      assert s[..|s| - 1] + [s[|s| - 1]] == s;
    }
  }

  /** Removing the first of distinct keys leaves the rest. */
  lemma WithoutFirst(s: seq<string>)
    requires Distinct(s) && s != []
    ensures Without(s, s[0]) == s[1..]
  {
    assert s[0] !in s[1..];
    WithoutHead(s);
  }

  lemma {:induction false} WithoutHead(s: seq<string>)
    requires s != [] && s[0] !in s[1..]
    ensures Without(s, s[0]) == s[1..]
  {
    if |s| == 1 {
    } else {
      var init := s[..|s| - 1];
      assert init[0] == s[0] && init[1..] == s[1..|s| - 1];
      assert s[0] !in init[1..];
      WithoutHead(init);
      assert s[1..] == s[1..|s| - 1] + [s[|s| - 1]];
    }
  }

  /** The picture keys among `s`, in order. */
  function PictureKeys(s: seq<string>): (r: seq<string>)
    ensures |r| <= |s|
    ensures forall y :: y in r <==> y in s && IsPictureKey(y)
  {
    if s == [] then []
    else
      var init := PictureKeys(s[..|s| - 1]);
      assert forall y :: y in s <==> y in s[..|s| - 1] || y == s[|s| - 1];
      if IsPictureKey(s[|s| - 1]) then init + [s[|s| - 1]] else init
  }

  lemma {:induction false} PictureKeysDistinct(s: seq<string>)
    requires Distinct(s)
    ensures Distinct(PictureKeys(s))
  {
    if s != [] {
      PictureKeysDistinct(s[..|s| - 1]);
    }
  }

  /** Removing a key and then selecting the picture keys is selecting and
      then removing. */
  lemma {:induction false} PictureKeysWithout(s: seq<string>, x: string)
    ensures PictureKeys(Without(s, x)) == Without(PictureKeys(s), x)
  {
    if s != [] {
      var init := s[..|s| - 1];
      var last := s[|s| - 1];
      PictureKeysWithout(init, x);
      if last != x {
        var w := Without(init, x);
        assert (w + [last])[..|w + [last]| - 1] == w;
        if IsPictureKey(last) {
          var p := PictureKeys(init);
          assert (p + [last])[..|p + [last]| - 1] == p;
        }
      } else if IsPictureKey(last) {
        var p := PictureKeys(init);
        assert (p + [last])[..|p + [last]| - 1] == p;
      }
    }
  }

  /** Removing the oldest picture key from a list of distinct keys drops
      exactly the head of its picture keys. */
  lemma RemoveFirstPictureKey(s: seq<string>)
    requires Distinct(s) && PictureKeys(s) != []
    ensures PictureKeys(Without(s, PictureKeys(s)[0])) == PictureKeys(s)[1..]
  {
    var p := PictureKeys(s);
    PictureKeysWithout(s, p[0]);
    PictureKeysDistinct(s);
    WithoutFirst(p);
  }

  /** The last ten of `s`, or all of `s` when it has at most ten. */
  function Newest(s: seq<string>): (r: seq<string>)
    ensures |r| == if |s| > 10 then 10 else |s|
    ensures forall i | 0 <= i < |r| :: r[i] == s[|s| - |r| + i]
  {
    if |s| > 10 then s[|s| - 10..] else s
  }

  // --------------------------------------------------------------- storage

  /** The browser's key-value storage: the keys in their enumeration order
      and the stored values. */
  class PictureStore {
    var keys: seq<string>
    var items: map<string, string>

    ghost predicate Valid()
      reads this
    {
      Distinct(keys) && forall k :: k in items <==> k in keys
    }

    constructor ()
      ensures Valid() && keys == [] && items == map[]
    {
      keys := [];
      items := map[];
    }

    /** `localStorage.setItem`. The model assumes the browser enumerates
        keys in insertion order, so a new key is enumerated last; the Web
        Storage standard leaves that order to the browser. */
    method SetItem(key: string, value: string)
      requires Valid()
      modifies this
      ensures Valid()
      ensures items == old(items)[key := value]
      ensures keys == if key in old(items) then old(keys) else old(keys) + [key]
    {
      if key !in items {
        keys := keys + [key];
      }
      items := items[key := value];
    }

    /** `localStorage.removeItem`. */
    method RemoveItem(key: string)
      requires Valid()
      modifies this
      ensures Valid()
      ensures items == old(items) - {key}
      ensures keys == Without(old(keys), key)
    {
      WithoutDistinct(keys, key);
      keys := Without(keys, key);
      items := items - {key};
    }

    /** `getProfilePicture`. */
    function Get(userId: int): (r: Option<string>)
      reads this
      ensures r.Some? <==> KeyFor(userId) in items
      ensures r.Some? ==> r.value == items[KeyFor(userId)]
    {
      if KeyFor(userId) in items then Some(items[KeyFor(userId)]) else None
    }

    /** The loop of `clearOldProfilePictures` that collects the picture
        keys in storage order. */
    method CollectPictureKeys() returns (found: seq<string>)
      ensures found == PictureKeys(keys)
    {
      found := [];
      var i := 0;
      while i < |keys|
        invariant 0 <= i <= |keys|
        invariant found == PictureKeys(keys[..i])
      {
        assert keys[..i + 1][..i] == keys[..i];
        if IsPictureKey(keys[i]) {
          found := found + [keys[i]];
        }
        i := i + 1;
      }
      assert keys[..i] == keys;
    }

    /** Removes the first `n` picture keys, oldest first; other entries and
        the kept values are untouched. */
    method RemoveOldest(n: nat)
      requires Valid() && n <= |PictureKeys(keys)|
      modifies this
      ensures Valid()
      ensures PictureKeys(keys) == old(PictureKeys(keys))[n..]
      ensures forall k :: k in items ==> k in old(items) && items[k] == old(items)[k]
      ensures forall k :: k in old(items) && !IsPictureKey(k) ==> k in items
    {
      ghost var found := PictureKeys(keys);
      var j := 0;
      while j < n
        invariant 0 <= j <= n
        invariant Valid()
        invariant PictureKeys(keys) == found[j..]
        invariant forall k :: k in items ==> k in old(items) && items[k] == old(items)[k]
        invariant forall k :: k in old(items) && !IsPictureKey(k) ==> k in items
      {
        var key := PictureKeys(keys)[0];
        RemoveFirstPictureKey(keys);
        assert found[j..][1..] == found[j + 1..];
        RemoveItem(key);
        j := j + 1;
      }
    }

    /** `clearOldProfilePictures`: collects the picture keys in storage
        order and, when there are more than ten, removes all but the last
        ten; other entries and the kept values are untouched. */
    method ClearOld()
      requires Valid()
      modifies this
      ensures Valid()
      ensures PictureKeys(keys) == Newest(PictureKeys(old(keys)))
      ensures forall k :: k in items ==> k in old(items) && items[k] == old(items)[k]
      ensures forall k :: k in old(items) && !IsPictureKey(k) ==> k in items
    {
      var found := CollectPictureKeys();
      if |found| > 10 {
        RemoveOldest(|found| - 10);
      }
    }

    /** `saveProfilePicture`: stores the picture under the user's key; when
        the storage is full, clears old pictures and tries once more.
        Whether each write fits is a parameter. */
    method Save(userId: int, imageData: string, firstFits: bool, retryFits: bool)
      requires Valid()
      modifies this
      ensures Valid()
      ensures firstFits || retryFits ==> Get(userId) == Some(imageData)
      ensures firstFits ==> forall u :: u != userId ==> Get(u) == old(Get(u))
      ensures firstFits ==> items == old(items)[KeyFor(userId) := imageData]
      ensures forall k :: k in items && k != KeyFor(userId) ==> k in old(items) && items[k] == old(items)[k]
      ensures forall k :: k in old(items) && !IsPictureKey(k) ==> k in items && items[k] == old(items)[k]
      ensures !firstFits ==> forall k :: IsPictureKey(k) && (k != KeyFor(userId) || !retryFits) ==>
        (k in items <==> k in Newest(PictureKeys(old(keys))))
    {
      var key := KeyFor(userId);
      if firstFits {
        SetItem(key, imageData);
        forall u | u != userId ensures Get(u) == old(Get(u)) {
          KeyForInjective(u, userId);
        }
      } else {
        ClearOld();
        assert forall k :: IsPictureKey(k) ==> (k in items <==> k in PictureKeys(keys));
        if retryFits {
          SetItem(key, imageData);
        }
      }
    }

    /** `removeProfilePicture`: the user's picture is gone and every other
        user's is kept. */
    method Remove(userId: int)
      requires Valid()
      modifies this
      ensures Valid()
      ensures Get(userId).None?
      ensures forall u :: u != userId ==> Get(u) == old(Get(u))
      ensures items == old(items) - {KeyFor(userId)}
    {
      RemoveItem(KeyFor(userId));
      forall u | u != userId ensures Get(u) == old(Get(u)) {
        KeyForInjective(u, userId);
      }
    }
  }
}
