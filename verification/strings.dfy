/** String joining as the package does it. Both GetHeader (response.go) and the
    cookie line built by repeated AddCookie calls grow an accumulator with the
    same step: append `sep + v` when the accumulator is non-empty, otherwise
    replace it by `v`. This module defines that left fold and relates it to a
    plain join. */
module Strings {

  /** The items separated by `sep`, as strings.Join does. */
  function Join(items: seq<string>, sep: string): string
  {
    if |items| == 0 then ""
    else if |items| == 1 then items[0]
    else items[0] + sep + Join(items[1..], sep)
  }

  /** The items after the leading run of empty strings. */
  function DropLeadingEmpty(items: seq<string>): (r: seq<string>)
    ensures |r| <= |items|
    ensures r == items[|items| - |r|..]
    ensures forall i | 0 <= i < |items| - |r| :: items[i] == ""
    ensures r == [] || r[0] != ""
    decreases |items|
  {
    if |items| == 0 then []
    else if items[0] == "" then DropLeadingEmpty(items[1..])
    else items
  }

  /** One iteration of the accumulate loop. */
  function Step(acc: string, v: string, sep: string): string
  {
    if acc != "" then acc + sep + v else v
  }

  /** The accumulator after running the loop over `vs`, starting from `acc`. */
  function FoldFrom(acc: string, vs: seq<string>, sep: string): string
    decreases |vs|
  {
    if |vs| == 0 then acc else FoldFrom(Step(acc, vs[0], sep), vs[1..], sep)
  }

  /** The loop equals a plain join once the leading empty values are dropped:
      an empty accumulator absorbs empty values, and a non-empty one never
      becomes empty again. */
  lemma {:induction false} FoldIsJoin(acc: string, vs: seq<string>, sep: string)
    ensures FoldFrom(acc, vs, sep) == Join(DropLeadingEmpty([acc] + vs), sep)
    decreases |vs|
  {
    if |vs| == 0 {
      assert [acc] + vs == [acc];
    } else {
      var next := Step(acc, vs[0], sep);
      FoldIsJoin(next, vs[1..], sep);
      if acc == "" {
        assert ([acc] + vs)[1..] == vs;
        assert [next] + vs[1..] == vs;
      } else {
        assert ([acc] + vs)[1..] == vs;
        assert DropLeadingEmpty([next] + vs[1..]) == [next] + vs[1..];
        assert ([next] + vs[1..])[1..] == vs[1..];
        if |vs| > 1 {
          assert Join(vs, sep) == vs[0] + sep + Join(vs[1..], sep);
        }
      }
    }
  }

  /** The loop started from "" (as GetHeader does) joins the values after the
      leading empty ones. */
  lemma FoldFromEmptyIsJoin(vs: seq<string>, sep: string)
    ensures FoldFrom("", vs, sep) == Join(DropLeadingEmpty(vs), sep)
  {
    FoldIsJoin("", vs, sep);
    if |vs| > 0 {
      assert ([""] + vs)[1..] == vs;
    }
  }

  /** When no value is empty, the loop joins the starting accumulator (unless
      it is empty) and all the values. */
  lemma FoldNonEmptyIsJoin(acc: string, vs: seq<string>, sep: string)
    requires forall i | 0 <= i < |vs| :: vs[i] != ""
    ensures FoldFrom(acc, vs, sep) == Join((if acc == "" then [] else [acc]) + vs, sep)
  {
    if |vs| == 0 {
      assert (if acc == "" then [] else [acc]) + vs == (if acc == "" then [] else [acc]);
    } else {
      FoldIsJoin(acc, vs, sep);
      if acc == "" {
        assert ([acc] + vs)[1..] == vs;
        assert DropLeadingEmpty([acc] + vs) == DropLeadingEmpty(vs) == vs;
        assert (if acc == "" then [] else [acc]) + vs == vs;
      }
    }
  }

  /** Joining after the leading empty values gives "" exactly when every
      value is empty. */
  lemma JoinDroppedIsEmptyIff(vs: seq<string>, sep: string)
    ensures Join(DropLeadingEmpty(vs), sep) == "" <==> forall i | 0 <= i < |vs| :: vs[i] == ""
  {
    var d := DropLeadingEmpty(vs);
    if |d| > 0 {
      assert Join(d, sep)[..|d[0]|] == d[0];
      assert vs[|vs| - |d|] == d[0];
    }
  }

  /** FoldFromEmptyIsJoin for every value list at once. */
  lemma FoldFromEmptyIsJoinAll(sep: string)
    ensures forall vs: seq<string> {:trigger FoldFrom("", vs, sep)} ::
              FoldFrom("", vs, sep) == Join(DropLeadingEmpty(vs), sep)
  {
    forall vs: seq<string> {
      FoldFromEmptyIsJoin(vs, sep);
    }
  }
}
