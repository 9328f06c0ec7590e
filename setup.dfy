/**
 * The one decision setup makes after flag parsing: a coordinate file whose
 * path ends in ".bim" (a PLINK variant file, position in its fourth column)
 * reads positions from column 3, unless the command line mentions -posIdx.
 * The mention is a pattern match on the arguments joined by spaces, so it
 * counts wherever "-posIdx" occurs, even inside another argument.
 */
module Setup {
  import opened Text

  const POS_IDX_FLAG: string := "-posIdx"
  const BIM_SUFFIX: string := ".bim"
  const BIM_POS_IDX: int := 3

  /** The position index in force, from the arguments, the coordinate path and the parsed flag value. */
  function PosIdxDefault(args: seq<string>, bedPath: string, parsed: int): (r: int)
    ensures r == parsed || r == BIM_POS_IDX
    ensures r != parsed ==> HasSuffix(bedPath, BIM_SUFFIX)
  {
    if !Contains(Join(args, ' '), POS_IDX_FLAG) && HasSuffix(bedPath, BIM_SUFFIX) then BIM_POS_IDX else parsed
  }

  /** An occurrence in either half is an occurrence in the whole. */
  lemma ContainsAppend(a: string, b: string, p: string)
    requires Contains(a, p) || Contains(b, p)
    ensures Contains(a + b, p)
  {
    ContainsIff(a + b, p);
    if Contains(a, p) {
      ContainsIff(a, p);
      var i :| 0 <= i <= |a| && HasPrefix(a[i..], p);
      TakeWithinLeft(a, b, i, |p|);
    } else {
      ContainsIff(b, p);
      var i :| 0 <= i <= |b| && HasPrefix(b[i..], p);
      DropLeft(a, b, i);
    }
  }

  /** A window that ends inside the left text reads the same in the joined text. */
  lemma TakeWithinLeft(a: string, b: string, i: nat, n: nat)
    requires i + n <= |a|
    ensures (a + b)[i..][..n] == a[i..][..n]
  {
  }

  /** Past the left text, the joined text is the right-hand text. */
  lemma DropLeft(a: string, b: string, i: nat)
    requires i <= |b|
    ensures (a + b)[|a| + i..] == b[i..]
  {
  }

  /** A pattern without a space cannot occur across the space that joins two texts. */
  lemma ContainsAcrossSpace(a: string, b: string, p: string)
    requires ' ' !in p && Contains(a + [' '] + b, p)
    ensures Contains(a, p) || Contains(b, p)
  {
    var s := a + [' '] + b;
    ContainsIff(s, p);
    var i :| 0 <= i <= |s| && HasPrefix(s[i..], p);
    if i + |p| <= |a| {
      ContainsIff(a, p);
      assert a[i..][..|p|] == s[i..][..|p|];
    } else {
      forall k | i <= k < i + |p| ensures s[k] != ' ' {
        assert s[k] == p[k - i];
      }
      assert s[|a|] == ' ';
      DropPastSpace(a, b, i);
      ContainsIff(b, p);
    }
  }

  /** Past the joining space, the joined text is the right-hand text. */
  lemma DropPastSpace(a: string, b: string, i: int)
    requires |a| < i <= |a| + 1 + |b|
    ensures (a + [' '] + b)[i..] == b[i - |a| - 1..]
  {
  }

  /** A space-free, non-empty pattern occurs in the joined arguments exactly when it occurs in one of them. */
  lemma {:induction false} ContainsJoin(args: seq<string>, p: string)
    requires p != [] && ' ' !in p
    ensures Contains(Join(args, ' '), p) <==> exists i :: 0 <= i < |args| && Contains(args[i], p)
    decreases |args|
  {
    if args == [] {
      assert !HasPrefix([], p);
    } else if |args| == 1 {
      assert Join(args, ' ') == args[0];
    } else {
      var more := Join(args[1..], ' ');
      ContainsJoin(args[1..], p);
      assert Join(args, ' ') == args[0] + [' '] + more;
      assert args[0] + [' '] + more == args[0] + ([' '] + more);
      if Contains(Join(args, ' '), p) {
        ContainsAcrossSpace(args[0], more, p);
        if !Contains(args[0], p) {
          var i :| 0 <= i < |args[1..]| && Contains(args[1..][i], p);
          assert args[1..][i] == args[i + 1];
        }
      } else {
        forall i | 0 <= i < |args| ensures !Contains(args[i], p) {
          if i == 0 {
            if Contains(args[0], p) {
              ContainsAppend(args[0], [' '] + more, p);
            }
          } else {
            assert args[i] == args[1..][i - 1];
            if Contains(args[i], p) {
              ContainsAppend(args[0] + [' '], more, p);
            }
          }
        }
      }
    }
  }

  /** An argument that mentions -posIdx anywhere keeps the parsed value, whatever the path. */
  lemma FlagMentionKeepsParsed(args: seq<string>, i: nat, bedPath: string, parsed: int)
    requires i < |args| && Contains(args[i], POS_IDX_FLAG)
    ensures PosIdxDefault(args, bedPath, parsed) == parsed
  {
    ContainsJoin(args, POS_IDX_FLAG);
  }

  /** A ".bim" path with no mention of -posIdx reads positions from column 3. */
  lemma BimPathUsesColumnThree(args: seq<string>, bedPath: string, parsed: int)
    requires forall i :: 0 <= i < |args| ==> !Contains(args[i], POS_IDX_FLAG)
    requires HasSuffix(bedPath, BIM_SUFFIX)
    ensures PosIdxDefault(args, bedPath, parsed) == BIM_POS_IDX
  {
    ContainsJoin(args, POS_IDX_FLAG);
  }
}
