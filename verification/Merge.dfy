/** The deep merge behind PATCH on a stateful resource. */
module Merge {
  import opened Json

  /** The tree a merge of src into dst leaves behind: where both hold an object
      under a key the two are merged, every other member of src replaces the
      member of dst. */
  function MergeObjects(dst: Object, src: Object): (r: Object)
    ensures r.fields.Keys == dst.fields.Keys + src.fields.Keys
    decreases src
  {
    Obj(map k | k in dst.fields.Keys + src.fields.Keys ::
          if k !in src.fields then dst.fields[k]
          else if src.fields[k].Obj? && k in dst.fields && dst.fields[k].Obj?
          then MergeObjects(dst.fields[k], src.fields[k])
          else src.fields[k])
  }

  /** The source's loop: the patch's keys are visited in an arbitrary order and
      dst is updated one key at a time. The result does not depend on the order. */
  method MergeInPlace(dst: Object, src: Object) returns (merged: Object)
    ensures merged == MergeObjects(dst, src)
    decreases src
  {
    merged := dst;
    var pending := src.fields.Keys;
    while pending != {}
      invariant pending <= src.fields.Keys
      invariant merged.fields.Keys == dst.fields.Keys + (src.fields.Keys - pending)
      invariant forall k :: k in merged.fields ==>
        merged.fields[k] == if k in src.fields && k !in pending then MergeObjects(dst, src).fields[k]
                            else dst.fields[k]
      decreases pending
    {
      var key :| key in pending;
      pending := pending - {key};
      var value := src.fields[key];
      if value.Obj? && key in merged.fields && merged.fields[key].Obj? {
        assert merged.fields[key] == dst.fields[key];
        var member := MergeInPlace(merged.fields[key], value);
        merged := Obj(merged.fields[key := member]);
      } else {
        merged := Obj(merged.fields[key := value]);
      }
    }
  }

  /** MergePatch as section 2 of RFC 7396 defines it; a missing target member is
      passed as Null, which like any non-object starts from the empty object. */
  function MergePatch(target: Json, patch: Json): Json
    decreases patch
  {
    if patch.Obj? then
      var start := if target.Obj? then target.fields else map[];
      Obj(map k | k in start.Keys + patch.fields.Keys && (k in patch.fields ==> patch.fields[k] != Null) ::
            if k in patch.fields
            then MergePatch(if k in start then start[k] else Null, patch.fields[k])
            else start[k])
    else
      patch
  }

  /** No object member reachable through objects is null. */
  predicate NullFree(patch: Json)
    decreases patch
  {
    patch.Obj? ==> forall k :: k in patch.fields ==> patch.fields[k] != Null && NullFree(patch.fields[k])
  }

  /** Merging into the empty object copies the patch. */
  lemma MergeIntoEmpty(p: Object)
    ensures MergeObjects(Obj(map[]), p) == p
  {
  }

  lemma StartsEmpty(t: Json, p: Object)
    requires !t.Obj?
    ensures MergePatch(t, p) == MergePatch(Obj(map[]), p)
  {
  }

  /** The merge is the standard's MergePatch on exactly the patches without a
      null member, whatever the target. */
  lemma {:induction false} AgreesWithMergePatchIff(t: Object, p: Object)
    ensures MergeObjects(t, p) == MergePatch(t, p) <==> NullFree(p)
    decreases p
  {
    var ours, standard := MergeObjects(t, p).fields, MergePatch(t, p).fields;
    forall k | k in p.fields && p.fields[k] != Null
      ensures k in standard && (ours[k] == standard[k] <==> NullFree(p.fields[k]))
    {
      var v := p.fields[k];
      assert standard[k] == MergePatch(if k in t.fields then t.fields[k] else Null, v);
      if v.Obj? {
        if k in t.fields && t.fields[k].Obj? {
          AgreesWithMergePatchIff(t.fields[k], v);
        } else {
          AgreesWithMergePatchIff(Obj(map[]), v);
          StartsEmpty(if k in t.fields then t.fields[k] else Null, v);
          MergeIntoEmpty(v);
        }
      }
    }
    if NullFree(p) {
      assert ours == standard;
    } else {
      var k :| k in p.fields && (p.fields[k] == Null || !NullFree(p.fields[k]));
      assert k in ours;
      assert p.fields[k] == Null ==> k !in standard;
    }
  }

  /** Applying the same patch twice changes nothing more. */
  lemma {:induction false} Idempotent(t: Object, p: Object)
    ensures MergeObjects(MergeObjects(t, p), p) == MergeObjects(t, p)
    decreases p
  {
    var once := MergeObjects(t, p);
    forall k | k in p.fields
      ensures MergeObjects(once, p).fields[k] == once.fields[k]
    {
      var v := p.fields[k];
      if v.Obj? {
        if k in t.fields && t.fields[k].Obj? {
          Idempotent(t.fields[k], v);
        } else {
          MergeSelf(v);
        }
      }
    }
    assert MergeObjects(once, p).fields == once.fields;
  }

  lemma {:induction false} MergeSelf(p: Object)
    ensures MergeObjects(p, p) == p
    decreases p
  {
    forall k | k in p.fields && p.fields[k].Obj? {
      MergeSelf(p.fields[k]);
    }
    assert MergeObjects(p, p).fields == p.fields;
  }

  /** Everything t holds is replaced by q: merging q into t forgets t. */
  predicate Overwrites(q: Object, t: Object)
    decreases t
  {
    forall k :: k in t.fields ==>
      k in q.fields && (t.fields[k].Obj? && q.fields[k].Obj? ==> Overwrites(q.fields[k], t.fields[k]))
  }

  lemma {:induction false} OverwritesIff(q: Object, t: Object)
    ensures MergeObjects(t, q) == q <==> Overwrites(q, t)
    decreases t
  {
    var m := MergeObjects(t, q).fields;
    forall k | k in t.fields && k in q.fields && t.fields[k].Obj? && q.fields[k].Obj? {
      OverwritesIff(q.fields[k], t.fields[k]);
    }
    if Overwrites(q, t) {
      assert m == q.fields;
    } else {
      var k :| k in t.fields &&
        !(k in q.fields && (t.fields[k].Obj? && q.fields[k].Obj? ==> Overwrites(q.fields[k], t.fields[k])));
      assert k in m;
      assert k in q.fields ==> m[k] != q.fields[k];
    }
  }

  /** Where the target and the second patch both hold objects, the first patch
      holds nothing, an object again, or something the second patch hides all of
      the target under. */
  predicate Composable(t: Object, p: Object, q: Object)
    decreases q
  {
    forall k :: k in q.fields && k in t.fields && k in p.fields && q.fields[k].Obj? && t.fields[k].Obj? ==>
      if p.fields[k].Obj? then Composable(t.fields[k], p.fields[k], q.fields[k])
      else Overwrites(q.fields[k], t.fields[k])
  }

  /** Two patches in sequence equal the one merged patch exactly on composable
      triples. */
  lemma {:induction false} SequenceIsMergedPatchIff(t: Object, p: Object, q: Object)
    ensures MergeObjects(MergeObjects(t, p), q) == MergeObjects(t, MergeObjects(p, q)) <==> Composable(t, p, q)
    decreases q
  {
    var left, right := MergeObjects(MergeObjects(t, p), q).fields, MergeObjects(t, MergeObjects(p, q)).fields;
    assert left.Keys == right.Keys;
    forall k | k in left
      ensures left[k] == right[k] <==>
        (k in q.fields && k in t.fields && k in p.fields && q.fields[k].Obj? && t.fields[k].Obj? ==>
          if p.fields[k].Obj? then Composable(t.fields[k], p.fields[k], q.fields[k])
          else Overwrites(q.fields[k], t.fields[k]))
    {
      SequenceAtKey(t, p, q, k);
    }
    if Composable(t, p, q) {
      assert left == right;
    } else {
      var k :| k in q.fields && k in t.fields && k in p.fields && q.fields[k].Obj? && t.fields[k].Obj? &&
        !(if p.fields[k].Obj? then Composable(t.fields[k], p.fields[k], q.fields[k])
          else Overwrites(q.fields[k], t.fields[k]));
      assert k in left && left[k] != right[k];
    }
  }

  lemma {:induction false} SequenceAtKey(t: Object, p: Object, q: Object, k: string)
    requires k in t.fields.Keys + p.fields.Keys + q.fields.Keys
    ensures MergeObjects(MergeObjects(t, p), q).fields[k] == MergeObjects(t, MergeObjects(p, q)).fields[k] <==>
      (k in q.fields && k in t.fields && k in p.fields && q.fields[k].Obj? && t.fields[k].Obj? ==>
        if p.fields[k].Obj? then Composable(t.fields[k], p.fields[k], q.fields[k])
        else Overwrites(q.fields[k], t.fields[k]))
    decreases q, 0
  {
    if k in q.fields && q.fields[k].Obj? && k in p.fields && k in t.fields && t.fields[k].Obj? {
      if p.fields[k].Obj? {
        SequenceIsMergedPatchIff(t.fields[k], p.fields[k], q.fields[k]);
      } else {
        OverwritesIff(q.fields[k], t.fields[k]);
      }
    }
  }

  /** A null member is stored where the standard removes the member. */
  lemma NullMemberDiffers()
    ensures
      var target, patch := Obj(map["a" := Num(1.0)]), Obj(map["a" := Null]);
      MergeObjects(target, patch) == patch && MergePatch(target, patch) == Obj(map[])
  {
    var target, patch := Obj(map["a" := Num(1.0)]), Obj(map["a" := Null]);
    assert MergeObjects(target, patch).fields == patch.fields;
    assert MergePatch(target, patch).fields == map[];
  }

  /** A first patch that overwrites an object with a number hides it from a second
      patch, but not from the two patches merged. */
  lemma SequenceDiffers()
    ensures
      var target, number, empty :=
        Obj(map["a" := Obj(map["b" := Num(1.0)])]), Obj(map["a" := Num(1.0)]), Obj(map["a" := Obj(map[])]);
      && MergeObjects(MergeObjects(target, number), empty) == empty
      && MergeObjects(target, MergeObjects(number, empty)) == target
  {
    var target, number, empty :=
      Obj(map["a" := Obj(map["b" := Num(1.0)])]), Obj(map["a" := Num(1.0)]), Obj(map["a" := Obj(map[])]);
    assert MergeObjects(target, number).fields == number.fields;
    assert MergeObjects(number, empty).fields == empty.fields;
    MergeIntoEmpty(target.fields["a"]);
    assert MergeObjects(target.fields["a"], Obj(map[])).fields == target.fields["a"].fields;
    assert MergeObjects(target, empty).fields == target.fields;
  }
}
