/** How the server names a stored file and the URL it reports for it:
    `${timestamp}-${originalname.replace(/\s/g, "_")}` and
    `${PUBLIC_BASE_URL}/${filename}`. The clock reading is a parameter. */
module Naming {
  import opened JsText

  /** The character that `replace(/\s/g, "_")` puts in place of `c`. */
  function Replacement(c: char): char
  {
    if IsWhitespace(c) then '_' else c
  }

  /** `name.replace(/\s/g, "_")`: every whitespace character becomes `_`. */
  function Sanitize(name: string): (r: string)
    ensures |r| == |name|
  {
    if name == [] then [] else [Replacement(name[0])] + Sanitize(name[1..])
  }

  /** The stored filename: the decimal timestamp, a dash, and the client's
      original name with its whitespace replaced. */
  function StoredName(timestamp: int, originalname: string): (filename: string)
    ensures |filename| == |ToDecimal(timestamp)| + 1 + |originalname|
    ensures filename[..|ToDecimal(timestamp)| + 1] == ToDecimal(timestamp) + "-"
  {
    ToDecimal(timestamp) + "-" + Sanitize(originalname)
  }

  /** The public URL of a stored file; an unset base URL renders as
      `undefined`. Nothing is normalised: a base ending in `/` yields `//`. */
  function PublicUrl(baseUrl: Option<string>, filename: string): (url: string)
    ensures |url| == |Interpolate(baseUrl)| + 1 + |filename|
    ensures url[..|Interpolate(baseUrl)|] == Interpolate(baseUrl)
    ensures url[|Interpolate(baseUrl)|] == '/'
    ensures url[|url| - |filename|..] == filename
  {
    Interpolate(baseUrl) + "/" + filename
  }

  // ---------------------------------------------------------------------------
  // Sanitize

  /** Position by position: whitespace becomes `_`, every other character
      (`/` and `.` included) is kept. */
  lemma {:induction false} SanitizeAt(name: string, i: nat)
    requires i < |name|
    ensures Sanitize(name)[i] == if IsWhitespace(name[i]) then '_' else name[i]
  {
    if i > 0 {
      SanitizeAt(name[1..], i - 1);
    }
  }

  /** The sanitized name contains no whitespace. */
  lemma SanitizeHasNoWhitespace(name: string)
    ensures forall i :: 0 <= i < |Sanitize(name)| ==> !IsWhitespace(Sanitize(name)[i])
  {
    forall i | 0 <= i < |Sanitize(name)| ensures !IsWhitespace(Sanitize(name)[i]) {
      SanitizeAt(name, i);
    }
  }

  /** A name is left unchanged exactly when it holds no whitespace. */
  lemma SanitizeFixedPoint(name: string)
    ensures Sanitize(name) == name <==> forall i :: 0 <= i < |name| ==> !IsWhitespace(name[i])
  {
    if Sanitize(name) == name {
      SanitizeHasNoWhitespace(name);
    } else {
      var i :| 0 <= i < |name| && Sanitize(name)[i] != name[i];
      SanitizeAt(name, i);
    }
  }

  /** Sanitizing twice is sanitizing once. */
  lemma SanitizeIdempotent(name: string)
    ensures Sanitize(Sanitize(name)) == Sanitize(name)
  {
    SanitizeHasNoWhitespace(name);
    SanitizeFixedPoint(Sanitize(name));
  }

  /** Two names sanitize alike exactly when they have the same length and
      agree everywhere except where both hold whitespace or one holds
      whitespace and the other `_`. */
  lemma SanitizeEqual(a: string, b: string)
    ensures Sanitize(a) == Sanitize(b) <==>
      |a| == |b| && forall i :: 0 <= i < |a| ==> Replacement(a[i]) == Replacement(b[i])
  {
    if Sanitize(a) == Sanitize(b) {
      forall i | 0 <= i < |a| ensures Replacement(a[i]) == Replacement(b[i]) {
        SanitizeAt(a, i);
        SanitizeAt(b, i);
      }
    }
    if |a| == |b| && forall i :: 0 <= i < |a| ==> Replacement(a[i]) == Replacement(b[i]) {
      forall i | 0 <= i < |a| ensures Sanitize(a)[i] == Sanitize(b)[i] {
        SanitizeAt(a, i);
        SanitizeAt(b, i);
      }
    }
  }

  // ---------------------------------------------------------------------------
  // StoredName

  /** The stored name holds no whitespace at all. */
  lemma StoredNameHasNoWhitespace(timestamp: int, originalname: string)
    ensures forall i :: 0 <= i < |StoredName(timestamp, originalname)| ==>
      !IsWhitespace(StoredName(timestamp, originalname)[i])
  {
    ToDecimalShape(timestamp);
    SanitizeHasNoWhitespace(originalname);
    var d, s := ToDecimal(timestamp), Sanitize(originalname);
    forall i | 0 <= i < |d + "-" + s| ensures !IsWhitespace((d + "-" + s)[i]) {
      if i > |d| {
        assert (d + "-" + s)[i] == s[i - |d| - 1];
      }
    }
  }

  /** After the timestamp and the dash, the stored name is the `originalname`
      the handler receives, character by character, with only whitespace
      changed: any `/` or `.` in that string is kept in the remote path. */
  lemma StoredNameKeepsCharacters(timestamp: int, originalname: string, i: nat)
    requires i < |originalname|
    ensures |StoredName(timestamp, originalname)| == |ToDecimal(timestamp)| + 1 + |originalname|
    ensures StoredName(timestamp, originalname)[|ToDecimal(timestamp)| + 1 + i] ==
      if IsWhitespace(originalname[i]) then '_' else originalname[i]
  {
    SanitizeAt(originalname, i);
  }

  /** The stored name is a function of the timestamp and the sanitized name
      and of nothing else: two uploads get the same name exactly when their
      timestamps are equal and their original names sanitize alike. */
  lemma StoredNameCollides(t1: int, n1: string, t2: int, n2: string)
    ensures StoredName(t1, n1) == StoredName(t2, n2) <==> t1 == t2 && Sanitize(n1) == Sanitize(n2)
  {
    var d1, d2 := ToDecimal(t1), ToDecimal(t2);
    var s1, s2 := d1 + "-" + Sanitize(n1), d2 + "-" + Sanitize(n2);
    if s1 == s2 {
      ToDecimalShape(t1);
      ToDecimalShape(t2);
      DashAfterTimestamp(d1, Sanitize(n1), d2, Sanitize(n2));
      assert d1 == s1[..|d1|] && d2 == s2[..|d2|];
      ToDecimalInjective(t1, t2);
      assert Sanitize(n1) == s1[|d1| + 1..] && Sanitize(n2) == s2[|d2| + 1..];
    }
  }

  /** The dash after a rendered timestamp is the first dash past index 0,
      so two equal stored names split at the same place. */
  lemma DashAfterTimestamp(d1: string, r1: string, d2: string, r2: string)
    requires |d1| >= 1 && |d2| >= 1
    requires forall i :: 0 < i < |d1| ==> IsDecimalDigit(d1[i])
    requires forall i :: 0 < i < |d2| ==> IsDecimalDigit(d2[i])
    requires d1 + "-" + r1 == d2 + "-" + r2
    ensures |d1| == |d2|
  {
    var s := d1 + "-" + r1;
    assert s[|d1|] == '-' && s[|d2|] == '-';
    assert forall j :: 0 < j < |d1| ==> s[j] == d1[j] && s[j] != '-';
    assert forall j :: 0 < j < |d2| ==> s[j] == d2[j] && s[j] != '-';
  }

  /** Distinct uploads in the same millisecond collide when their names
      differ only in whitespace versus `_`: replacing any whitespace
      character of a name by `_` gives a different name and the same stored
      name. */
  lemma WhitespaceVariantCollides(timestamp: int, originalname: string, i: nat)
    requires i < |originalname| && IsWhitespace(originalname[i])
    ensures originalname[i := '_'] != originalname
    ensures StoredName(timestamp, originalname[i := '_']) == StoredName(timestamp, originalname)
  {
    var other := originalname[i := '_'];
    assert other[i] != originalname[i];
    SanitizeEqual(other, originalname);
  }

  // ---------------------------------------------------------------------------
  // PublicUrl

  /** For a fixed base URL, the URL determines the filename. */
  lemma PublicUrlDeterminesFilename(baseUrl: Option<string>, f1: string, f2: string)
    requires PublicUrl(baseUrl, f1) == PublicUrl(baseUrl, f2)
    ensures f1 == f2
  {
    var u := PublicUrl(baseUrl, f1);
    assert f1 == u[|Interpolate(baseUrl)| + 1..];
  }
}
