/** The one piece of logic in `backend/app/main.py`: reading the allowed
    CORS origins from the `CORS_ORIGINS` setting. The environment lookup
    itself is the parameter `raw`; the web application is not modelled. */
module Api {
  import opened Wrappers
  import opened Strings

  /** The origins allowed when nothing is configured: the web front end's
      development server. */
  const DefaultOrigins: seq<string> := ["http://localhost:5173", "http://127.0.0.1:5173"]

  /** Every piece stripped, in order. */
  function StripAll(pieces: seq<string>): (r: seq<string>)
    ensures |r| == |pieces|
    ensures forall k :: 0 <= k < |r| ==> r[k] == Strip(pieces[k])
  {
    seq(|pieces|, k requires 0 <= k < |pieces| => Strip(pieces[k]))
  }

  /** The entries that are not blank, in order. */
  function NonBlank(entries: seq<string>): (r: seq<string>)
    ensures |r| <= |entries|
  {
    if entries == [] then []
    else (if entries[0] != [] then [entries[0]] else []) + NonBlank(entries[1..])
  }

  /** `_parse_cors_origins`: the defaults for a missing or empty setting,
      otherwise the comma-separated entries, stripped, without the blank
      ones. */
  function ParseCorsOrigins(raw: Option<string>): (r: seq<string>)
    ensures raw.None? || raw.value == [] ==> r == DefaultOrigins
    ensures forall o :: o in r ==> o != []
  {
    if raw.None? || raw.value == [] then DefaultOrigins
    else
      NonBlankMembers(StripAll(Split(raw.value, ',')));
      NonBlank(StripAll(Split(raw.value, ',')))
  }

  /** A missing or empty setting allows exactly the two development
      origins. */
  lemma DefaultsWhenUnset(raw: Option<string>)
    requires raw.None? || raw.value == []
    ensures ParseCorsOrigins(raw) == ["http://localhost:5173", "http://127.0.0.1:5173"]
    ensures |ParseCorsOrigins(raw)| == 2
  {
  }

  /** An entry is kept exactly when it is in the input and not blank. */
  lemma {:induction false} NonBlankMembers(entries: seq<string>)
    ensures forall o :: o in NonBlank(entries) <==> o in entries && o != []
  {
    if entries != [] {
      NonBlankMembers(entries[1..]);
      assert entries == [entries[0]] + entries[1..];
    }
  }

  /** The origins follow the order of the setting: the entries kept from
      two runs are those kept from the first followed by those kept from
      the second. */
  lemma {:induction false} NonBlankOfAppend(a: seq<string>, b: seq<string>)
    ensures NonBlank(a + b) == NonBlank(a) + NonBlank(b)
  {
    if a == [] {
      assert a + b == b;
    } else {
      assert (a + b)[1..] == a[1..] + b;
      NonBlankOfAppend(a[1..], b);
    }
  }

  /** An origin is allowed exactly when it is a non-blank piece of the
      setting once stripped. */
  lemma ParsedOriginsMembers(raw: string)
    requires raw != []
    ensures forall o :: o in ParseCorsOrigins(Some(raw)) <==> o != [] && o in StripAll(Split(raw, ','))
  {
    NonBlankMembers(StripAll(Split(raw, ',')));
  }

  /** A set value yields no more origins than it has comma-separated
      pieces, each non-blank, stripped and free of commas. */
  lemma ParsedOriginsShape(raw: string)
    requires raw != []
    ensures var r := ParseCorsOrigins(Some(raw));
      && |r| <= |Split(raw, ',')|
      && forall k :: 0 <= k < |r| ==> r[k] != [] && IsStripped(r[k]) && ',' !in r[k]
  {
    var pieces := Split(raw, ',');
    var r := ParseCorsOrigins(Some(raw));
    NonBlankMembers(StripAll(pieces));
    forall k | 0 <= k < |r| ensures r[k] != [] && IsStripped(r[k]) && ',' !in r[k] {
      assert r[k] in r;
      var j :| 0 <= j < |pieces| && Strip(pieces[j]) == r[k];
      StripIsTrimmedSlice(pieces[j]);
      var a, b :| 0 <= a <= b <= |pieces[j]| && Strip(pieces[j]) == pieces[j][a..b];
      assert ',' !in pieces[j];
    }
  }
}
