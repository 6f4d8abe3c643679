/**
 * The few Ruby built-ins the shortener leans on, stated on Dafny strings:
 * what an expression evaluates to (a string, nil, false or an escaping
 * exception), String#split(/:/) and Integer#to_s.
 */
module Ruby {

  /** What a Ruby method call hands back to its caller. */
  datatype Outcome =
    | Str(s: string)
    | Nil
    | False
    | Raises     // an exception escapes the call
    | Diverges   // the call never returns (a probing loop that keeps drawing)

  /** What a page that serves a short key ends in. */
  datatype Expansion =
    | Found(url: string)   // the stored URL, served or redirected to
    | NotFound             // `halt 404`
    | Fails                // an exception escapes: the server answers 500
    | Home                 // `redirect '/'`

  /** The pieces of `s` between colons, empty pieces included. */
  function Fields(s: string): (r: seq<string>)
    ensures |r| >= 1
    ensures forall i :: 0 <= i < |r| ==> ':' !in r[i]
  {
    if s == [] then [""]
    else
      var rest := Fields(s[1..]);
      if s[0] == ':' then [""] + rest
      else [[s[0]] + rest[0]] + rest[1..]
  }

  /** The inverse of Fields: the pieces glued back together with colons. */
  function JoinColons(f: seq<string>): string
    requires |f| >= 1
  {
    if |f| == 1 then f[0] else f[0] + ":" + JoinColons(f[1..])
  }

  lemma {:induction false} JoinFields(s: string)
    ensures JoinColons(Fields(s)) == s
  {
    if s != [] {
      JoinFields(s[1..]);
      var rest := Fields(s[1..]);
      if s[0] == ':' {
        assert Fields(s)[1..] == rest;
      } else {
        var r := Fields(s);
        assert r[0] == [s[0]] + rest[0];
        if |rest| == 1 {
          assert JoinColons(r) == [s[0]] + rest[0];
        } else {
          assert r[1..] == rest[1..];
          assert JoinColons(r) == [s[0]] + (rest[0] + ":" + JoinColons(rest[1..]));
        }
        assert s == [s[0]] + s[1..];
      }
    }
  }

  /** Ruby drops the empty fields at the end of a split. */
  function DropTrailingEmpty(f: seq<string>): (r: seq<string>)
    ensures |r| <= |f| && r == f[..|r|]
    ensures r == [] || r[|r| - 1] != ""
    ensures forall i :: |r| <= i < |f| ==> f[i] == ""
  {
    if f != [] && f[|f| - 1] == "" then DropTrailingEmpty(f[..|f| - 1]) else f
  }

  /** `s.split(/:/)` */
  function Split(s: string): seq<string>
  {
    DropTrailingEmpty(Fields(s))
  }

  /**
   * `s.split(/:/)[n]`: the n-th colon-separated field, or nil past the end
   * of the array, that is exactly when every field from the n-th on is empty.
   */
  function SplitAt(s: string, n: nat): (r: Outcome)
    ensures r.Str? ==> n < |Fields(s)| && r.s == Fields(s)[n]
    ensures r == Nil <==> forall i :: n <= i < |Fields(s)| ==> Fields(s)[i] == ""
    ensures r.Str? || r == Nil
  {
    var f := Split(s);
    if n < |f| then Str(f[n]) else Nil
  }

  lemma {:induction false} FieldsWithoutColon(s: string)
    requires ':' !in s
    ensures Fields(s) == [s]
  {
    if s != [] {
      FieldsWithoutColon(s[1..]);
      assert [s[0]] + s[1..] == s;
    }
  }

  lemma {:induction false} FieldsAfterColon(x: string, s: string)
    requires ':' !in x
    ensures Fields(x + ":" + s) == [x] + Fields(s)
  {
    if x == [] {
      assert x + ":" + s == [':'] + s;
      assert (x + ":" + s)[1..] == s;
    } else {
      FieldsAfterColon(x[1..], s);
      var t := x + ":" + s;
      assert t[0] == x[0] && t[1..] == x[1..] + ":" + s;
      assert [x[0]] + x[1..] == x;
    }
  }

  /** `n.to_s` for the non-negative integers the model prints. */
  function Decimal(n: nat): (r: string)
    ensures |r| >= 1
    ensures forall i :: 0 <= i < |r| ==> '0' <= r[i] <= '9'
  {
    if n < 10 then [('0' as int + n) as char]
    else Decimal(n / 10) + [('0' as int + n % 10) as char]
  }

  /** Distinct numbers print differently. */
  lemma {:induction false} DecimalInjective(a: nat, b: nat)
    ensures Decimal(a) == Decimal(b) ==> a == b
  {
    if a >= 10 && b >= 10 && Decimal(a) == Decimal(b) {
      var s := Decimal(a);
      assert Decimal(a / 10) == s[..|s| - 1] == Decimal(b / 10);
      DecimalInjective(a / 10, b / 10);
    }
  }
}
