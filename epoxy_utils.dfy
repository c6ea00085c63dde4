/** EpoxyUtils: whether a @JsonField field is optional. */
module EpoxyUtils {
  import opened Elements

  const OPTIONAL := "Optional"
  const NULLABLE := "Nullable"

  /** Whether `simpleName` equals one of `names` (the inner loop of hasAnnotationWithName). */
  function NameListed(simpleName: string, names: seq<string>): (r: bool)
    ensures r <==> exists j :: 0 <= j < |names| && names[j] == simpleName
  {
    if |names| == 0 then false
    else if names[0] == simpleName then true
    else NameListed(simpleName, names[1..])
  }

  /** hasAnnotationWithName: scans the annotations in order and, for each, the names in
      order, answering true at the first annotation whose simple name is listed. */
  function HasAnnotationWithName(annotations: seq<Annotation>, names: seq<string>): bool
  {
    if |annotations| == 0 then false
    else if NameListed(annotations[0].simpleName, names) then true
    else HasAnnotationWithName(annotations[1..], names)
  }

  /** The nested search is an existential: some annotation's simple name is some listed name. */
  lemma {:induction false} HasAnnotationWithNameIsExists(annotations: seq<Annotation>, names: seq<string>)
    ensures HasAnnotationWithName(annotations, names) <==>
            exists i, j :: 0 <= i < |annotations| && 0 <= j < |names| &&
                           annotations[i].simpleName == names[j]
  {
    if |annotations| > 0 {
      HasAnnotationWithNameIsExists(annotations[1..], names);
      if !NameListed(annotations[0].simpleName, names) {
        forall i, j | 0 < i < |annotations| && 0 <= j < |names| &&
                      annotations[i].simpleName == names[j]
          ensures annotations[1..][i - 1].simpleName == names[j]
        {
        }
      }
    }
  }

  /** The answer depends neither on the order of the annotations nor on the order of the names. */
  lemma HasAnnotationWithNameOrderFree(a1: seq<Annotation>, a2: seq<Annotation>,
                                       n1: seq<string>, n2: seq<string>)
    requires multiset(a1) == multiset(a2) && multiset(n1) == multiset(n2)
    ensures HasAnnotationWithName(a1, n1) == HasAnnotationWithName(a2, n2)
  {
    HasAnnotationWithNameIsExists(a1, n1);
    HasAnnotationWithNameIsExists(a2, n2);
    if HasAnnotationWithName(a1, n1) {
      var i, j :| 0 <= i < |a1| && 0 <= j < |n1| && a1[i].simpleName == n1[j];
      assert a1[i] in multiset(a2) && n1[j] in multiset(n2);
      var i' :| 0 <= i' < |a2| && a2[i'] == a1[i];
      var j' :| 0 <= j' < |n2| && n2[j'] == n1[j];
    }
    if HasAnnotationWithName(a2, n2) {
      var i, j :| 0 <= i < |a2| && 0 <= j < |n2| && a2[i].simpleName == n2[j];
      assert a2[i] in multiset(a1) && n2[j] in multiset(n1);
      var i' :| 0 <= i' < |a1| && a1[i'] == a2[i];
      var j' :| 0 <= j' < |n1| && n1[j'] == n2[j];
    }
  }

  /** isOptional: the annotation's optional() flag, or an annotation whose simple name is
      "Optional" or "Nullable", whatever package defines it. */
  function IsOptional(optionalFlag: bool, annotations: seq<Annotation>): (r: bool)
    ensures optionalFlag ==> r
    ensures !optionalFlag ==>
              (r <==> exists i :: 0 <= i < |annotations| &&
                                  (annotations[i].simpleName == OPTIONAL ||
                                   annotations[i].simpleName == NULLABLE))
  {
    MarkerSearch(annotations);
    optionalFlag || HasAnnotationWithName(annotations, [OPTIONAL, NULLABLE])
  }

  lemma MarkerSearch(annotations: seq<Annotation>)
    ensures HasAnnotationWithName(annotations, [OPTIONAL, NULLABLE]) <==>
            exists i :: 0 <= i < |annotations| &&
                        (annotations[i].simpleName == OPTIONAL || annotations[i].simpleName == NULLABLE)
  {
    var names := [OPTIONAL, NULLABLE];
    HasAnnotationWithNameIsExists(annotations, names);
    if exists i :: 0 <= i < |annotations| &&
                   (annotations[i].simpleName == OPTIONAL || annotations[i].simpleName == NULLABLE) {
      var i :| 0 <= i < |annotations| &&
               (annotations[i].simpleName == OPTIONAL || annotations[i].simpleName == NULLABLE);
      var j := if annotations[i].simpleName == OPTIONAL then 0 else 1;
      assert annotations[i].simpleName == names[j];
    }
  }

  /** With the flag off and no annotations at all, a field is required. */
  lemma NotOptionalByDefault()
    ensures !IsOptional(false, [])
  {
  }

  /** Only simple names matter: moving annotations to other packages changes nothing. */
  lemma IsOptionalIgnoresPackage(flag: bool, a1: seq<Annotation>, a2: seq<Annotation>)
    requires |a1| == |a2|
    requires forall i :: 0 <= i < |a1| ==> a1[i].simpleName == a2[i].simpleName
    ensures IsOptional(flag, a1) == IsOptional(flag, a2)
  {
  }
}
