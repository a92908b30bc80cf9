/**
 * The repository-name to directory-name mapping of
 * spec/src/utils/path-converter.ts: every '/' becomes '_' on the way to a
 * path name and every '_' becomes '/' on the way back.
 */
module PathConverter {

  /** Every occurrence of `from` replaced by `to` (a global `replace`). */
  function ReplaceAll(s: string, from: char, to: char): (r: string)
    ensures |r| == |s|
    ensures forall i :: 0 <= i < |s| ==> r[i] == (if s[i] == from then to else s[i])
  {
    if |s| == 0 then "" else [if s[0] == from then to else s[0]] + ReplaceAll(s[1..], from, to)
  }

  /** toSafePathName */
  function ToSafePathName(repoName: string): (r: string)
    ensures '/' !in r
  {
    ReplaceAll(repoName, '/', '_')
  }

  /** fromSafePathName */
  function FromSafePathName(safePathName: string): (r: string)
    ensures '_' !in r
  {
    ReplaceAll(safePathName, '_', '/')
  }

  /** Both keep the length and every character other than the one replaced. */
  lemma ConvertersKeepOtherCharacters(s: string)
    ensures |ToSafePathName(s)| == |s| && |FromSafePathName(s)| == |s|
    ensures forall i :: 0 <= i < |s| && s[i] != '/' ==> ToSafePathName(s)[i] == s[i]
    ensures forall i :: 0 <= i < |s| && s[i] != '_' ==> FromSafePathName(s)[i] == s[i]
  {
  }

  /** A safe path name is its own safe path name. */
  lemma ToSafeIdempotent(s: string)
    ensures ToSafePathName(ToSafePathName(s)) == ToSafePathName(s)
  {
  }

  /** Converting to a path name and back restores the name iff it had no '_'. */
  lemma {:induction false} ToThenFromRestoresIff(s: string)
    ensures FromSafePathName(ToSafePathName(s)) == s <==> '_' !in s
  {
    if '_' in s {
      var i :| 0 <= i < |s| && s[i] == '_';
      assert FromSafePathName(ToSafePathName(s))[i] == '/';
    } else {
      var r := FromSafePathName(ToSafePathName(s));
      assert forall i :: 0 <= i < |s| ==> r[i] == s[i];
    }
  }

  /** Converting back to a name and again to a path name restores it iff it had no '/'. */
  lemma {:induction false} FromThenToRestoresIff(t: string)
    ensures ToSafePathName(FromSafePathName(t)) == t <==> '/' !in t
  {
    if '/' in t {
      var i :| 0 <= i < |t| && t[i] == '/';
      assert ToSafePathName(FromSafePathName(t))[i] == '_';
    } else {
      var r := ToSafePathName(FromSafePathName(t));
      assert forall i :: 0 <= i < |t| ==> r[i] == t[i];
    }
  }

  /**
   * A repository name with an underscore (such as 'my-app_v1.0') comes back
   * with a '/' in its place.
   */
  lemma {:induction false} UnderscoreComesBackAsSlash(a: string, b: string)
    requires '_' !in a && '/' !in a && '_' !in b && '/' !in b
    ensures FromSafePathName(ToSafePathName(a + "_" + b)) == a + "/" + b
  {
    var s, e := a + "_" + b, a + "/" + b;
    var r := FromSafePathName(ToSafePathName(s));
    assert forall i :: 0 <= i < |s| ==> r[i] == e[i] by {
      forall i | 0 <= i < |s|
        ensures r[i] == e[i]
      {
        if i < |a| {
          assert s[i] == a[i] && e[i] == a[i];
        } else if i == |a| {
          assert s[i] == '_' && e[i] == '/';
        } else {
          assert s[i] == b[i - |a| - 1] && e[i] == b[i - |a| - 1];
        }
      }
    }
  }
}
