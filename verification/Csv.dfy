/** The text form of a set of page numbers: the `edited_pages` column. */
module Csv {
  import opened Basics

  predicate IsDigits(s: string) {
    s != [] && forall c :: c in s ==> '0' <= c <= '9'
  }

  /** `str(n)`. */
  function Decimal(n: nat): (s: string)
    ensures IsDigits(s)
  {
    var last := ['0' + (n % 10) as char];
    if n < 10 then last else Decimal(n / 10) + last
  }

  /** `int(s)` on a string of digits. */
  function ParseDecimal(s: string): nat
    requires IsDigits(s)
  {
    var rest := s[..|s| - 1];
    assert s[|s| - 1] in s;
    var last := (s[|s| - 1] - '0') as nat;
    if rest == [] then last
    else
      assert forall c :: c in rest ==> c in s;
      ParseDecimal(rest) * 10 + last
  }

  lemma {:induction false} ParseDecimalInverts(n: nat)
    ensures ParseDecimal(Decimal(n)) == n
  {
    var s := Decimal(n);
    if n >= 10 {
      ParseDecimalInverts(n / 10);
      assert s[..|s| - 1] == Decimal(n / 10);
    }
  }

  /** `str.strip`. */
  function Strip(s: string): string {
    if s == [] then s
    else if IsSpace(s[0]) then Strip(s[1..])
    else if IsSpace(s[|s| - 1]) then Strip(s[..|s| - 1])
    else s
  }

  /** `raw.split(",")`: never empty. */
  function Split(raw: string): (parts: seq<string>)
    ensures parts != []
  {
    if raw == [] then [[]]
    else
      var rest := Split(raw[1..]);
      if raw[0] == ',' then [[]] + rest
      else [[raw[0]] + rest[0]] + rest[1..]
  }

  /** `",".join(...)`. */
  function Join(parts: seq<string>): string {
    if parts == [] then []
    else if |parts| == 1 then parts[0]
    else parts[0] + "," + Join(parts[1..])
  }

  function Encode(pages: seq<nat>): string {
    Join(MapSeq(pages, Decimal))
  }

  /** The numbers among the comma-separated parts; parts that are no number are passed over. */
  function Decode(raw: string): set<nat> {
    set p | p in Split(raw) && IsDigits(Strip(p)) :: ParseDecimal(Strip(p))
  }

  lemma {:induction false} SplitJoins(part: string, rest: string)
    requires ',' !in part
    ensures Split(part + "," + rest) == [part] + Split(rest)
  {
    if part == [] {
      assert part + "," + rest == "," + rest;
    } else {
      var whole := part + "," + rest;
      assert whole[1..] == part[1..] + "," + rest;
      SplitJoins(part[1..], rest);
      assert [part[0]] + part[1..] == part;
    }
  }

  lemma {:induction false} SplitNothing(part: string)
    requires ',' !in part
    ensures Split(part) == [part]
  {
    if part != [] {
      SplitNothing(part[1..]);
      assert [part[0]] + part[1..] == part;
    }
  }

  lemma {:induction false} SplitInvertsJoin(parts: seq<string>)
    requires parts != [] && forall p :: p in parts ==> ',' !in p
    ensures Split(Join(parts)) == parts
  {
    if |parts| == 1 {
      SplitNothing(parts[0]);
    } else {
      SplitJoins(parts[0], Join(parts[1..]));
      SplitInvertsJoin(parts[1..]);
    }
  }

  lemma StripDigits(s: string)
    requires IsDigits(s)
    ensures Strip(s) == s
  {
    assert s[0] in s && s[|s| - 1] in s;
  }

  lemma DecodeOne(n: nat)
    ensures ParseDecimal(Decimal(n)) == n && Strip(Decimal(n)) == Decimal(n) && ',' !in Decimal(n)
  {
    ParseDecimalInverts(n);
    StripDigits(Decimal(n));
  }

  lemma EncodeParts(pages: seq<nat>)
    requires pages != []
    ensures Split(Encode(pages)) == MapSeq(pages, Decimal)
  {
    var parts := MapSeq(pages, Decimal);
    forall p | p in parts
      ensures ',' !in p
    {
      var i :| 0 <= i < |parts| && parts[i] == p;
      DecodeOne(pages[i]);
    }
    SplitInvertsJoin(parts);
  }

  lemma EncodedIsDecoded(pages: seq<nat>, n: nat)
    requires n in pages
    ensures n in Decode(Encode(pages))
  {
    var i :| 0 <= i < |pages| && pages[i] == n;
    EncodeParts(pages);
    DecodeOne(n);
    assert MapSeq(pages, Decimal)[i] == Decimal(n);
    assert Decimal(n) in Split(Encode(pages));
  }

  lemma DecodedWasEncoded(pages: seq<nat>, n: nat)
    requires pages != [] && n in Decode(Encode(pages))
    ensures n in pages
  {
    EncodeParts(pages);
    var p :| p in Split(Encode(pages)) && IsDigits(Strip(p)) && ParseDecimal(Strip(p)) == n;
    var i :| 0 <= i < |pages| && MapSeq(pages, Decimal)[i] == p;
    DecodeOne(pages[i]);
  }

  /** What the editor writes to the column, it reads back: the same set of pages. */
  lemma DecodeInvertsEncode(pages: seq<nat>)
    ensures Decode(Encode(pages)) == set p | p in pages
  {
    if pages == [] {
      assert Split(Encode(pages)) == [""] && Strip("") == "";
    } else {
      forall n
        ensures n in Decode(Encode(pages)) <==> n in pages
      {
        if n in pages {
          EncodedIsDecoded(pages, n);
        }
        if n in Decode(Encode(pages)) {
          DecodedWasEncoded(pages, n);
        }
      }
    }
  }
}
