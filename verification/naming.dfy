/**
  Automatic naming of output paths: when the old path (and the second path
  of the tab) are filled in, the GUI proposes a patch file name on the
  create tab and an output name on the apply tab, placed next to the old
  path.
 */
module AutoNaming {
  import opened PathNames

  const PatchSuffix: string := "_patch.diff"
  const NewSuffix: string := "_new"

  /** `<stem>_patch.diff`, where the stem is the old path's base name without its extension. */
  function PatchFileName(oldPath: string): (name: string)
    ensures HasSuffix(name, PatchSuffix)
    ensures Ext(name) == ".diff"
    ensures Stem(name) == Stem(Base(oldPath)) + "_patch"
  {
    var stem := Stem(Base(oldPath));
    PatchNameShape(stem);
    stem + PatchSuffix
  }

  /** `<stem>_new<ext>`: the old path's base name with `_new` inserted before its extension. */
  function OutputFileName(oldPath: string): (name: string)
    ensures Ext(name) == Ext(Base(oldPath))
    ensures Stem(name) == Stem(Base(oldPath)) + NewSuffix
  {
    var b := Base(oldPath);
    OutputNameShape(b);
    Stem(b) + NewSuffix + Ext(b)
  }

  lemma PatchNameShape(stem: string)
    ensures HasSuffix(stem + PatchSuffix, PatchSuffix)
    ensures Ext(stem + PatchSuffix) == ".diff"
    ensures Stem(stem + PatchSuffix) == stem + "_patch"
  {
    var dotted := ".diff";
    assert dotted[0] == '.' && SepFree(dotted) && DotFree(dotted[1..]) by {
      assert dotted[1..] == "diff";
    }
    assert stem + PatchSuffix == (stem + "_patch") + dotted;
    StemOfDottedSuffix(stem + "_patch", dotted);
    var name := stem + PatchSuffix;
    assert name[|name| - |PatchSuffix|..] == PatchSuffix;
  }

  lemma OutputNameShape(b: string)
    ensures Ext(Stem(b) + NewSuffix + Ext(b)) == Ext(b)
    ensures Stem(Stem(b) + NewSuffix + Ext(b)) == Stem(b) + NewSuffix
  {
    var ext := Ext(b);
    var stem := Stem(b);
    if ext == "" {
      StemWithoutExt(b);
      assert stem + NewSuffix + ext == b + NewSuffix;
      assert SepFree(NewSuffix) && DotFree(NewSuffix);
      ExtOfPlainTail(b, NewSuffix);
      StemWithoutExt(b + NewSuffix);
    } else {
      ExtIsExtensionShaped(b);
      StemOfDottedSuffix(stem + NewSuffix, ext);
    }
  }

  /** A stem of a separator-free name followed by separator-free text is separator-free. */
  lemma StemThenPlain(b: string, tail: string)
    requires SepFree(b) && SepFree(tail)
    ensures SepFree(Stem(b) + tail)
  {
    var stem := Stem(b);
    assert stem == b[..|stem|];
    assert forall i :: 0 <= i < |stem| ==> stem[i] == b[i];
  }

  /** A base name built from a path that has a non-separator character has no separator. */
  lemma PatchFileNameIsPlain(oldPath: string)
    requires HasNonSep(oldPath)
    ensures SepFree(PatchFileName(oldPath))
  {
    assert SepFree(PatchSuffix);
    StemThenPlain(Base(oldPath), PatchSuffix);
  }

  lemma OutputFileNameIsPlain(oldPath: string)
    requires HasNonSep(oldPath)
    ensures SepFree(OutputFileName(oldPath))
  {
    var b := Base(oldPath);
    OutputNameOfPlainBase(b);
    assert OutputFileName(oldPath) == Stem(b) + NewSuffix + Ext(b);
  }

  lemma OutputNameOfPlainBase(b: string)
    requires SepFree(b)
    ensures SepFree(Stem(b) + NewSuffix + Ext(b))
  {
    var e := Ext(b);
    var tail := NewSuffix + e;
    ExtIsExtensionShaped(b);
    assert SepFree(e);
    assert SepFree(NewSuffix);
    assert forall ch :: ch in tail ==> ch in NewSuffix || ch in e;
    StemThenPlain(b, tail);
    assert Stem(b) + NewSuffix + e == Stem(b) + tail;
  }

  /** The create tab's three path fields and its remembered automatic name. */
  datatype PatchTab = PatchTab(oldPath: string, newPath: string, patchPath: string, autoName: string)

  /** The apply tab's three path fields and its remembered automatic name. */
  datatype ApplyTab = ApplyTab(oldPath: string, patchPath: string, newPath: string, autoName: string)

  /**
    `updatePatchName`: with both the old and the new path filled in, the
    patch field is replaced by `<dir of old>\<stem>_patch.diff` unless it
    already holds exactly the bare proposed name.
   */
  function UpdatePatchName(t: PatchTab): (r: PatchTab)
    ensures r.oldPath == t.oldPath && r.newPath == t.newPath
    ensures t.oldPath == "" || t.newPath == "" ==> r == t
    ensures t.oldPath != "" && t.newPath != "" ==>
              && r.autoName == PatchFileName(t.oldPath)
              && (t.patchPath == r.autoName ==> r.patchPath == t.patchPath)
              && (t.patchPath != r.autoName ==> r.patchPath == Join(Dir(t.oldPath), r.autoName))
  {
    if t.oldPath == "" || t.newPath == "" then t
    else
      var name := PatchFileName(t.oldPath);
      var t' := t.(autoName := name);
      if t'.patchPath == "" || t'.patchPath != t'.autoName then
        t'.(patchPath := Join(Dir(t.oldPath), name))
      else t'
  }

  /**
    `updateApplyName`: with the old and the patch path filled in, the new
    path field is set to `<dir of old>\<stem>_new<ext>` only when it is
    empty or holds exactly the bare proposed name.
   */
  function UpdateApplyName(t: ApplyTab): (r: ApplyTab)
    ensures r.oldPath == t.oldPath && r.patchPath == t.patchPath
    ensures t.oldPath == "" || t.patchPath == "" ==> r == t
    ensures t.oldPath != "" && t.patchPath != "" ==>
              && r.autoName == OutputFileName(t.oldPath)
              && (t.newPath == "" || t.newPath == r.autoName ==> r.newPath == Join(Dir(t.oldPath), r.autoName))
              && (t.newPath != "" && t.newPath != r.autoName ==> r.newPath == t.newPath)
  {
    if t.oldPath == "" || t.patchPath == "" then t
    else
      var name := OutputFileName(t.oldPath);
      var t' := t.(autoName := name);
      if t'.newPath == "" || t'.newPath == t'.autoName then
        t'.(newPath := Join(Dir(t.oldPath), name))
      else t'
  }

  /** Refreshing the proposed patch name a second time changes nothing. */
  lemma UpdatePatchNameIdempotent(t: PatchTab)
    ensures UpdatePatchName(UpdatePatchName(t)) == UpdatePatchName(t)
  {
  }

  /** Refreshing the proposed output name a second time changes nothing. */
  lemma UpdateApplyNameIdempotent(t: ApplyTab)
    ensures UpdateApplyName(UpdateApplyName(t)) == UpdateApplyName(t)
  {
  }

  /**
    After the refresh, the patch field always names the proposed patch file;
    whenever it was rewritten, that file sits in the old path's directory.
   */
  lemma PatchPathNamesPatchFile(t: PatchTab)
    requires t.oldPath != "" && t.newPath != "" && HasNonSep(t.oldPath)
    ensures var r := UpdatePatchName(t);
            && Base(r.patchPath) == PatchFileName(t.oldPath)
            && (r.patchPath != PatchFileName(t.oldPath) ==> Dir(r.patchPath) == Dir(t.oldPath))
  {
    var name := PatchFileName(t.oldPath);
    var r := UpdatePatchName(t);
    PatchFileNameIsPlain(t.oldPath);
    PatchNameNonEmpty(t.oldPath);
    if t.patchPath == name {
      assert r.patchPath == name;
      BaseOfPlainName(name);
    } else {
      assert r.patchPath == Join(Dir(t.oldPath), name);
      DirJoinRoundTrip(t.oldPath, name);
    }
  }

  /**
    Whenever the apply tab's output field is filled in automatically, it
    names a file in the old path's directory with the old file's extension.
   */
  lemma OutputPathKeepsExtension(t: ApplyTab)
    requires t.oldPath != "" && t.patchPath != "" && HasNonSep(t.oldPath)
    requires t.newPath == "" || t.newPath == OutputFileName(t.oldPath)
    ensures var r := UpdateApplyName(t);
            && Dir(r.newPath) == Dir(t.oldPath)
            && Base(r.newPath) == OutputFileName(t.oldPath)
            && Ext(Base(r.newPath)) == Ext(Base(t.oldPath))
  {
    var name := OutputFileName(t.oldPath);
    OutputFileNameIsPlain(t.oldPath);
    OutputNameNonEmpty(t.oldPath);
    DirJoinRoundTrip(t.oldPath, name);
  }

  lemma PatchNameNonEmpty(oldPath: string)
    ensures PatchFileName(oldPath) != ""
  {
    assert |PatchFileName(oldPath)| >= |PatchSuffix|;
  }

  lemma OutputNameNonEmpty(oldPath: string)
    ensures OutputFileName(oldPath) != ""
  {
    var b := Base(oldPath);
    assert |OutputFileName(oldPath)| == |Stem(b)| + |NewSuffix| + |Ext(b)|;
  }
}
