/**
 JSON pointers into profile parameters (pkg/config/request_profiles.go): decoding
 them, removing what they point to, and patching parameters.
 */
module ProfilePointers {
  import opened Options
  import opened JsonValues
  import opened ProfileParameters

  type Path = seq<string>

  /** The value at a path of field names. */
  function Lookup(o: Object, path: Path): Option<Json>
    requires path != []
    decreases |path|
  {
    if path[0] !in o then None
    else if |path| == 1 then Some(o[path[0]])
    else if o[path[0]].Obj? then Lookup(o[path[0]].fields, path[1..])
    else None
  }

  // -------------------------------------------------------------------------
  // What a merge holds, path by path

  /** The overlay has something at q, or a value that is not an object on the way. */
  predicate Masks(o: Object, q: Path)
    requires q != []
    decreases |q|
  {
    q[0] in o && (|q| == 1 || !o[q[0]].Obj? || Masks(o[q[0]].fields, q[1..]))
  }

  /** The plain values of a merge: the overlay's, and the base's that no value of
      the overlay masks. */
  lemma {:induction false} MergeLookup(base: Object, overlay: Object, q: Path, j: Json)
    requires q != [] && !j.Obj?
    ensures Lookup(Merge(base, overlay), q) == Some(j) <==>
      Lookup(overlay, q) == Some(j) || (Lookup(base, q) == Some(j) && !Masks(overlay, q))
    decreases |q|
  {
    var k := q[0];
    if k in overlay && |q| > 1 && overlay[k].Obj? {
      if k in base && base[k].Obj? {
        MergeLookup(base[k].fields, overlay[k].fields, q[1..], j);
      } else {
        LookupMasked(overlay[k].fields, q[1..]);
      }
    }
  }

  lemma {:induction false} LookupMasked(o: Object, q: Path)
    requires q != []
    ensures Lookup(o, q).Some? ==> Masks(o, q)
    decreases |q|
  {
    if |q| > 1 && q[0] in o && o[q[0]].Obj? { LookupMasked(o[q[0]].fields, q[1..]); }
  }

  // -------------------------------------------------------------------------
  // Removal

  /** Removes the value at the path, and every object this leaves empty on the way. */
  function Remove(values: Object, path: Path): Object
    decreases |path|
  {
    if path == [] then values
    else if |path| == 1 then values - {path[0]}
    else if path[0] in values && values[path[0]].Obj? then
      var nested := Remove(values[path[0]].fields, path[1..]);
      if nested == map[] then values - {path[0]} else values[path[0] := Obj(nested)]
    else values
  }

  /** The path and everything below it is gone. */
  lemma {:induction false} RemoveRemoves(values: Object, path: Path, q: Path)
    requires path != [] && path <= q
    ensures Lookup(Remove(values, path), q).None?
    decreases |path|
  {
    if |path| > 1 && path[0] in values && values[path[0]].Obj? {
      assert path[1..] <= q[1..];
      RemoveRemoves(values[path[0]].fields, path[1..], q[1..]);
    }
  }

  /** Nothing appears, and whatever remains that is not an object is unchanged. */
  lemma {:induction false} RemoveAddsNothing(values: Object, path: Path, q: Path)
    requires q != [] && Lookup(Remove(values, path), q).Some?
    ensures Lookup(values, q).Some?
    ensures !Lookup(Remove(values, path), q).value.Obj? ==> Lookup(values, q) == Lookup(Remove(values, path), q)
    decreases |path|
  {
    if |path| > 1 && path[0] in values && values[path[0]].Obj? && q[0] == path[0] && |q| > 1 {
      RemoveAddsNothing(values[path[0]].fields, path[1..], q[1..]);
    }
  }

  /** Every value that is not an object and not at or below the path stays. */
  lemma {:induction false} RemoveKeeps(values: Object, path: Path, q: Path, j: Json)
    requires q != [] && Lookup(values, q) == Some(j) && !j.Obj? && !(path <= q)
    ensures Lookup(Remove(values, path), q) == Some(j)
    decreases |path|
  {
    if |path| > 1 && path[0] in values && values[path[0]].Obj? && q[0] == path[0] {
      assert path == [path[0]] + path[1..] && q == [q[0]] + q[1..];
      RemoveKeeps(values[path[0]].fields, path[1..], q[1..], j);
      assert q[1] in Remove(values[path[0]].fields, path[1..]);
    }
  }

  /** No object on the way to the path is left empty. */
  lemma {:induction false} RemovePrunes(values: Object, path: Path, p: Path)
    requires p != [] && p < path
    ensures Lookup(Remove(values, path), p) != Some(Obj(map[]))
    decreases |path|
  {
    if path[0] in values && values[path[0]].Obj? && |p| > 1 {
      assert p[1..] < path[1..];
      RemovePrunes(values[path[0]].fields, path[1..], p[1..]);
    }
  }

  /** Off the path, in either direction, nothing changes at all. */
  lemma {:induction false} RemoveElsewhere(values: Object, path: Path, q: Path)
    requires q != [] && !(path <= q) && !(q <= path)
    ensures Lookup(values, q).Some? ==> Lookup(Remove(values, path), q) == Lookup(values, q)
    decreases |path|
  {
    if |path| > 1 && path[0] in values && values[path[0]].Obj? && q[0] == path[0] && |q| > 1 {
      assert path == [path[0]] + path[1..] && q == [q[0]] + q[1..];
      RemoveElsewhere(values[path[0]].fields, path[1..], q[1..]);
      if Lookup(values, q).Some? { assert q[1] in Remove(values[path[0]].fields, path[1..]); }
    }
  }

  // -------------------------------------------------------------------------
  // Pointer text

  /** `strings.ReplaceAll(s, [a, b], [c])`, left to right. */
  function ReplaceAll(s: string, a: char, b: char, c: char): string {
    if |s| >= 2 && s[0] == a && s[1] == b then [c] + ReplaceAll(s[2..], a, b, c)
    else if s == [] then []
    else [s[0]] + ReplaceAll(s[1..], a, b, c)
  }

  /** The decoder: first ~1 to /, then ~0 to ~. */
  function Unescape(s: string): string {
    ReplaceAll(ReplaceAll(s, '~', '1', '/'), '~', '0', '~')
  }

  /** `strings.Split(s, "/")`. */
  function SplitSlash(s: string): (parts: seq<string>)
    ensures parts != []
  {
    if s == [] then [""]
    else
      var rest := SplitSlash(s[1..]);
      if s[0] == '/' then [""] + rest else [[s[0]] + rest[0]] + rest[1..]
  }

  function TrimSlash(s: string): string {
    if s != [] && s[0] == '/' then s[1..] else s
  }

  function DecodePointer(pointer: string): (path: Path)
    ensures path != []
  {
    var parts := SplitSlash(TrimSlash(pointer));
    seq(|parts|, i requires 0 <= i < |parts| => Unescape(parts[i]))
  }

  /** The pointers a patch may use. */
  predicate ValidPointer(pointer: string) {
    |pointer| <= 1024 && pointer != [] && pointer[0] == '/' && pointer != "/"
  }

  /** The encoding of section 3 of RFC 6901. */
  function Escape(key: string): string {
    if key == [] then []
    else (if key[0] == '~' then "~0" else if key[0] == '/' then "~1" else [key[0]]) + Escape(key[1..])
  }

  function EncodePointer(keys: Path): string {
    if keys == [] then [] else "/" + Escape(keys[0]) + EncodePointer(keys[1..])
  }

  function EscapeTilde(key: string): string {
    if key == [] then [] else (if key[0] == '~' then "~0" else [key[0]]) + EscapeTilde(key[1..])
  }

  lemma {:induction false} UnescapeSlash(key: string)
    ensures ReplaceAll(Escape(key), '~', '1', '/') == EscapeTilde(key)
  {
    if key != [] {
      UnescapeSlash(key[1..]);
      var e, rest := Escape(key), Escape(key[1..]);
      if key[0] == '~' {
        assert e == "~0" + rest && e[1..] == "0" + rest && e[1..][1..] == rest;
      } else if key[0] == '/' {
        assert e == "~1" + rest && e[2..] == rest;
      } else {
        assert e == [key[0]] + rest && e[1..] == rest;
      }
    }
  }

  lemma {:induction false} UnescapeTilde(key: string)
    ensures ReplaceAll(EscapeTilde(key), '~', '0', '~') == key
  {
    if key != [] {
      UnescapeTilde(key[1..]);
      var e, rest := EscapeTilde(key), EscapeTilde(key[1..]);
      if key[0] == '~' {
        assert e == "~0" + rest && e[2..] == rest;
      } else {
        assert e == [key[0]] + rest && e[1..] == rest;
      }
    }
  }

  lemma {:induction false} EscapeHasNoSlash(key: string)
    ensures '/' !in Escape(key)
  {
    if key != [] { EscapeHasNoSlash(key[1..]); }
  }

  /** Splitting a slash-free text followed by the rest of a pointer. */
  lemma {:induction false} SplitFirst(text: string, keys: Path)
    requires '/' !in text
    ensures SplitSlash(text + EncodePointer(keys)) == [text] + if keys == [] then [] else SplitSlash(TrimSlash(EncodePointer(keys)))
  {
    var s := text + EncodePointer(keys);
    if text == [] {
      assert s == EncodePointer(keys);
      assert keys != [] ==> s == "/" + TrimSlash(s);
    } else {
      SplitFirst(text[1..], keys);
      assert s[1..] == text[1..] + EncodePointer(keys);
      assert text == [text[0]] + text[1..];
    }
  }

  /** The only non-empty list of keys whose encoding is not a valid pointer,
      length aside, is the single empty key. */
  lemma EncodedPointerValid(keys: Path)
    requires keys != [] && |EncodePointer(keys)| <= 1024
    ensures ValidPointer(EncodePointer(keys)) <==> keys != [""]
  {
    EscapeLength(keys[0]);
    assert |EncodePointer(keys)| == 1 + |Escape(keys[0])| + |EncodePointer(keys[1..])|;
    assert EncodePointer(keys)[0] == '/';
    if keys[1..] == [] { assert keys == [keys[0]]; }
  }

  lemma {:induction false} EscapeLength(key: string)
    ensures |Escape(key)| >= |key| && (key == "" ==> Escape(key) == "")
  {
    if key != [] { EscapeLength(key[1..]); }
  }

  /** Decoding inverts encoding for every non-empty list of keys. */
  lemma {:induction false} PointerRoundTrip(keys: Path)
    requires keys != []
    ensures DecodePointer(EncodePointer(keys)) == keys
  {
    var first, rest := Escape(keys[0]), EncodePointer(keys[1..]);
    assert EncodePointer(keys) == "/" + (first + rest);
    assert TrimSlash(EncodePointer(keys)) == first + rest;
    EscapeHasNoSlash(keys[0]);
    SplitFirst(first, keys[1..]);
    UnescapeSlash(keys[0]);
    UnescapeTilde(keys[0]);
    var path := DecodePointer(EncodePointer(keys));
    assert path[0] == keys[0];
    if keys[1..] == [] {
      assert keys == [keys[0]];
    } else {
      PointerRoundTrip(keys[1..]);
      assert path[1..] == DecodePointer(rest);
      assert path == [path[0]] + path[1..];
    }
  }

  // -------------------------------------------------------------------------
  // Patches

  function RemoveAll(values: Object, pointers: seq<string>): Object {
    if pointers == [] then values
    else Remove(RemoveAll(values, pointers[..|pointers| - 1]), DecodePointer(pointers[|pointers| - 1]))
  }

  function Patched(values: Object, set': Object, remove: seq<string>): Object {
    RemoveAll(Merge(values, set'), remove)
  }

  method PatchProfileParameters(values: Object, set': Object, remove: seq<string>) returns (result: Object)
    ensures result == Patched(values, set', remove)
  {
    result := MergeProfileParameters(values, set');
    for i := 0 to |remove|
      invariant result == RemoveAll(Merge(values, set'), remove[..i])
    {
      assert remove[..i + 1][..i] == remove[..i];
      result := Remove(result, DecodePointer(remove[i]));
    }
    assert remove[..|remove|] == remove;
  }

  lemma {:induction false} RemoveAllRemoves(values: Object, pointers: seq<string>, i: nat, q: Path)
    requires i < |pointers| && DecodePointer(pointers[i]) <= q
    ensures Lookup(RemoveAll(values, pointers), q).None?
  {
    var init, last := pointers[..|pointers| - 1], DecodePointer(pointers[|pointers| - 1]);
    if i == |pointers| - 1 {
      RemoveRemoves(RemoveAll(values, init), last, q);
    } else {
      RemoveAllRemoves(values, init, i, q);
      if Lookup(RemoveAll(values, pointers), q).Some? {
        RemoveAddsNothing(RemoveAll(values, init), last, q);
      }
    }
  }

  /** No pointer reaches q. */
  predicate Untouched(pointers: seq<string>, q: Path) {
    forall i :: 0 <= i < |pointers| ==> !(DecodePointer(pointers[i]) <= q)
  }

  lemma UntouchedLast(pointers: seq<string>, q: Path)
    requires pointers != []
    ensures var n := |pointers| - 1;
      Untouched(pointers, q) <==> Untouched(pointers[..n], q) && !(DecodePointer(pointers[n]) <= q)
  {
    var n := |pointers| - 1;
    assert forall i :: 0 <= i < n ==> pointers[..n][i] == pointers[i];
  }

  /** The plain values after removing: those that no pointer reaches. */
  lemma {:induction false} RemoveAllContents(values: Object, pointers: seq<string>, q: Path, j: Json)
    requires q != [] && !j.Obj?
    ensures Lookup(RemoveAll(values, pointers), q) == Some(j) <==> Lookup(values, q) == Some(j) && Untouched(pointers, q)
  {
    if pointers != [] {
      var init, last := pointers[..|pointers| - 1], DecodePointer(pointers[|pointers| - 1]);
      RemoveAllContents(values, init, q, j);
      UntouchedLast(pointers, q);
      var before := RemoveAll(values, init);
      if last <= q {
        RemoveRemoves(before, last, q);
      } else if Lookup(before, q) == Some(j) {
        RemoveKeeps(before, last, q, j);
      } else if Lookup(Remove(before, last), q) == Some(j) {
        RemoveAddsNothing(before, last, q);
      }
    }
  }

  /** The plain values of a patched object: the patch's, then the base's that no
      value of the patch masks, less whatever a pointer reaches. */
  lemma PatchContents(values: Object, set': Object, remove: seq<string>, q: Path, j: Json)
    requires q != [] && !j.Obj?
    ensures Lookup(Patched(values, set', remove), q) == Some(j) <==>
      && Untouched(remove, q)
      && (Lookup(set', q) == Some(j) || (Lookup(values, q) == Some(j) && !Masks(set', q)))
  {
    RemoveAllContents(Merge(values, set'), remove, q, j);
    MergeLookup(values, set', q, j);
  }
}
