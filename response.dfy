/**
 * The reading half of `get_response`: the measurement tool's output is cut
 * with `split` to find the attack and release times it reports.
 */
module Response {
  import opened Wrappers
  import opened Numerals
  import opened Strings

  const ATTACK := "Attack: "
  const RELEASE := "Release: "

  /** What running the external measurement script yields. */
  datatype DeviceOutput =
    | Completed(stdout: string)
    | Failed(returnCode: int, stdout: string, stderr: string)

  /**
   * `out.split(tag)[1].split(' ')[0]`: the text after the first tag, up
   * to the next tag and then up to the first space; None where Python's
   * `[1]` raises IndexError.
   */
  function Field(out: string, tag: string): (r: Option<string>)
    requires |tag| > 0
    ensures r.Some? <==> Contains(out, tag)
  {
    SplitHasSecond(out, tag);
    var parts := Split(out, tag);
    if |parts| < 2 then None else Some(Split(parts[1], " ")[0])
  }

  /** The attack and release times in the tool's output, or None where the script would have no value to return. */
  function ParseResponse(out: string): (r: Option<(nat, nat)>)
    ensures r.Some? ==> Contains(out, ATTACK) && Contains(out, RELEASE)
  {
    match (Field(out, ATTACK), Field(out, RELEASE))
    case (Some(a), Some(b)) =>
      (match (ParseNumeral(a, 10), ParseNumeral(b, 10))
       case (Some(attack), Some(release)) => Some((attack, release))
       case _ => None)
    case _ => None
  }

  /** `get_response()` once the script has run: a failed run leaves nothing to parse. */
  function GetResponse(output: DeviceOutput): (r: Option<(nat, nat)>)
    ensures r.Some? ==> output.Completed?
  {
    match output
    case Completed(stdout) => ParseResponse(stdout)
    case Failed(_, _, _) => None
  }

  /** Text that starts with a space-free token and a space splits on spaces into that token first. */
  lemma TokenBeforeSpace(piece: string, token: string)
    requires |token| < |piece| && piece[..|token| + 1] == token + " "
    requires forall i :: 0 <= i < |token| ==> token[i] != ' '
    ensures Split(piece, " ")[0] == token
  {
    assert OccursAt(piece, " ", |token|) by {
      assert piece[|token|] == ' ';
      assert piece[|token|..|token| + 1] == [piece[|token|]];
    }
    forall k: nat | k < |token|
      ensures !OccursAt(piece, " ", k)
    {
      assert piece[k] == token[k];
      OccursAtFirstChar(piece, " ", k);
    }
    SplitAt(piece, " ", |token|);
    assert piece[..|token|] == token;
  }

  /** The field is read from what follows the first occurrence of the tag. */
  lemma FieldAfter(out: string, tag: string, n: nat)
    requires |tag| > 0 && OccursAt(out, tag, n)
    requires forall k: nat :: k < n ==> !OccursAt(out, tag, k)
    ensures Field(out, tag) == Some(Split(Split(out[n + |tag|..], tag)[0], " ")[0])
  {
    SplitAt(out, tag, n);
  }

  /** Text starting with a token and a space, cut before the next tag and then at spaces, gives the token. */
  lemma TokenBeforeTag(rest: string, tag: string, token: string, post: string)
    requires |tag| > 0 && tag[0] != ' ' && rest == token + " " + post
    requires forall i :: 0 <= i < |token| ==> token[i] != ' ' && token[i] != tag[0]
    ensures Split(Split(rest, tag)[0], " ")[0] == token
  {
    forall k: nat | k <= |token|
      ensures !OccursAt(rest, tag, k)
    {
      OccursAtFirstChar(rest, tag, k);
    }
    SplitHeadExtends(rest, tag, |token| + 1);
    var piece := Split(rest, tag)[0];
    assert piece[..|token| + 1] == rest[..|token| + 1] == token + " ";
    TokenBeforeSpace(piece, token);
  }

  /** The field of a tag whose first occurrence is followed by a space-free token and a space. */
  lemma FieldAfterReads(out: string, tag: string, n: nat, token: string, post: string)
    requires |tag| > 0 && tag[0] != ' '
    requires OccursAt(out, tag, n) && out[n + |tag|..] == token + " " + post
    requires forall k: nat :: k < n ==> !OccursAt(out, tag, k)
    requires forall i :: 0 <= i < |token| ==> token[i] != ' ' && token[i] != tag[0]
    ensures Field(out, tag) == Some(token)
  {
    FieldAfter(out, tag, n);
    TokenBeforeTag(token + " " + post, tag, token, post);
  }

  lemma TagAt(out: string, tag: string, pre: string, rest: string)
    requires out == pre + tag + rest
    ensures OccursAt(out, tag, |pre|) && out[|pre| + |tag|..] == rest
  {
    assert out[|pre|..|pre| + |tag|] == tag;
  }

  /** A tag whose first occurrence is followed by a space-free token and a space yields that token. */
  lemma FieldReads(out: string, tag: string, pre: string, token: string, post: string)
    requires |tag| > 0 && tag[0] != ' '
    requires out == pre + tag + token + " " + post
    requires forall k: nat :: k < |pre| ==> !OccursAt(out, tag, k)
    requires forall i :: 0 <= i < |token| ==> token[i] != ' ' && token[i] != tag[0]
    ensures Field(out, tag) == Some(token)
  {
    TagAt(out, tag, pre, token + " " + post);
    FieldAfterReads(out, tag, |pre|, token, post);
  }

  /** The first "Attack: " and the first "Release: " each followed by a decimal number and a space. */
  lemma ParseResponseReads(out: string, pre1: string, attack: nat, post1: string, pre2: string, release: nat, post2: string)
    requires out == pre1 + ATTACK + ToNumeral(attack, 10) + " " + post1
    requires forall k: nat :: k < |pre1| ==> !OccursAt(out, ATTACK, k)
    requires out == pre2 + RELEASE + ToNumeral(release, 10) + " " + post2
    requires forall k: nat :: k < |pre2| ==> !OccursAt(out, RELEASE, k)
    ensures ParseResponse(out) == Some((attack, release))
  {
    NumeralRoundTrip(attack, 10);
    NumeralRoundTrip(release, 10);
    assert IsNumeral(ToNumeral(attack, 10), 10) && IsNumeral(ToNumeral(release, 10), 10);
    FieldReads(out, ATTACK, pre1, ToNumeral(attack, 10), post1);
    FieldReads(out, RELEASE, pre2, ToNumeral(release, 10), post2);
  }
}
