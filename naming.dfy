/**
 * Per-camera output file names. Every multi-camera entry point derives one
 * video file per camera from a single base name by splicing a camera tag
 * between the base's root and its extension.
 */
module OutputNames {
  import opened Common

  /** The camera tag `-cam<n>` used by the threaded, serial, process and GUI runners. */
  function CamTag(camNum: int): (t: string)
    ensures '.' !in t && '/' !in t
  {
    "-cam" + IntToString(camNum)
  }

  /**
   * root + '-cam' + str(n) + ext of the base outfile, or no file at all when
   * there is no base outfile.
   */
  function CamOutfile(base: Option<string>, camNum: int): (r: Option<string>)
    ensures r.Some? <==> base.Some?
    ensures r.Some? ==> StartsWith(r.value, Root(base.value)) && EndsWith(r.value, Ext(base.value))
  {
    match base
    case None => None
    case Some(b) => Some(Root(b) + CamTag(camNum) + Ext(b))
  }

  /** The camera outfile keeps the base's extension, and its root is the base root plus the tag. */
  lemma CamOutfileKeepsExtension(base: string, camNum: int)
    ensures SplitExt(CamOutfile(Some(base), camNum).value) == (Root(base) + CamTag(camNum), Ext(base))
  {
    SplitExtInsert(base, CamTag(camNum));
  }

  lemma {:induction false} MiddleDetermined(a: string, m1: string, m2: string, z: string)
    requires a + m1 + z == a + m2 + z
    ensures m1 == m2
  {
    var q := a + m1 + z;
    assert |m1| == |m2|;
    assert q[|a|..|a| + |m1|] == m1;
    assert (a + m2 + z)[|a|..|a| + |m2|] == m2;
  }

  /** Two cameras never share an output file: the tag determines the camera number. */
  lemma CamOutfileInjective(base: string, n1: int, n2: int)
    requires CamOutfile(Some(base), n1) == CamOutfile(Some(base), n2)
    ensures n1 == n2
  {
    var root, ext := Root(base), Ext(base);
    assert root + ("-cam" + IntToString(n1)) + ext == root + ("-cam" + IntToString(n2)) + ext;
    assert root + ("-cam" + IntToString(n1)) == root + "-cam" + IntToString(n1);
    assert root + ("-cam" + IntToString(n2)) == root + "-cam" + IntToString(n2);
    MiddleDetermined(root + "-cam", IntToString(n1), IntToString(n2), ext);
    ParseIntOfIntToString(n1);
    ParseIntOfIntToString(n2);
  }

  /**
   * The process-per-camera runner splices the bare camera number instead,
   * `str(n).join(os.path.splitext(outfile))`, and only when the outfile is
   * truthy (an empty name opens no writer).
   */
  function NumberedOutfile(outfile: Option<string>, camNum: int): (r: Option<string>)
    ensures r.Some? <==> (outfile.Some? && outfile.value != "")
  {
    if outfile.None? || outfile.value == "" then None
    else Some(Root(outfile.value) + IntToString(camNum) + Ext(outfile.value))
  }

  /** The numbered outfile keeps the extension and is distinct per camera number. */
  lemma NumberedOutfileProperties(outfile: string, n1: int, n2: int)
    requires outfile != ""
    ensures SplitExt(NumberedOutfile(Some(outfile), n1).value) ==
            (Root(outfile) + IntToString(n1), Ext(outfile))
    ensures NumberedOutfile(Some(outfile), n1) == NumberedOutfile(Some(outfile), n2) ==> n1 == n2
  {
    SplitExtInsert(outfile, IntToString(n1));
    if NumberedOutfile(Some(outfile), n1) == NumberedOutfile(Some(outfile), n2) {
      MiddleDetermined(Root(outfile), IntToString(n1), IntToString(n2), Ext(outfile));
      ParseIntOfIntToString(n1);
      ParseIntOfIntToString(n2);
    }
  }
}
