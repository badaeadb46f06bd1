/** The check-in QR payloads `"I-<id>"` (internal guest) and `"E-<id>"`
    (external guest), and how the scanner splits a payload back apart. The
    generators and the scanner do not agree on what the number after `E-`
    identifies (a `guest` id in the list view, an `event_guest` id in the
    event view and in the scanner), so the round trip stated here is about
    the text only. */
module Qr {
  import opened Basics
  import opened Text

  /** The prefix of an internal guest's payload; the number is an executive id. */
  const Internal: string := "I"
  /** The prefix of an external guest's payload. */
  const External: string := "E"

  /** `` `${prefix}-${id}` ``: the prefix, a dash, and text that reads back
      as the id. */
  function Payload(prefix: string, id: nat): (p: string)
    ensures |p| > |prefix| && p[..|prefix|] == prefix && p[|prefix|] == '-'
    ensures ParseNat(p[|prefix| + 1..]) == Some(id)
  {
    DecimalRoundTrip(id);
    var p := prefix + "-" + Decimal(id);
    assert p[|prefix| + 1..] == Decimal(id);
    p
  }

  /** What `const [prefix, id] = text.split('-')` binds: the text before the
      first `'-'`, and the text between the first and the second `'-'` when
      there is one. */
  datatype Scanned = Scanned(prefix: string, id: Option<string>)

  function ParsePayload(text: string): (r: Scanned)
    ensures '-' !in r.prefix && r.prefix <= text
    ensures r.id.None? <==> '-' !in text
    ensures r.id.Some? ==> '-' !in r.id.value
  {
    var parts := Split(text, '-');
    SplitPrefix(text, '-');
    Scanned(parts[0], if |parts| > 1 then Some(parts[1]) else None)
  }

  /** The first part of a split is a prefix of the text, and there is more
      than one part exactly when the separator occurs. */
  lemma {:induction false} SplitPrefix(s: string, sep: char)
    ensures Split(s, sep)[0] <= s
    ensures |Split(s, sep)| > 1 <==> sep in s
  {
    if sep in s {
      var i := IndexOf(s, sep);
      assert s == s[..i] + [sep] + s[i + 1..];
      SplitCons(s[..i], sep, s[i + 1..]);
    }
  }

  /** Scanning a generated payload gives back its prefix and the decimal
      text of its number, which reads back as that number. */
  lemma PayloadRoundTrip(prefix: string, id: nat)
    requires '-' !in prefix
    ensures ParsePayload(Payload(prefix, id)) == Scanned(prefix, Some(Decimal(id)))
    ensures ParseNat(Decimal(id)) == Some(id)
  {
    DecimalHasNoDash(id);
    SplitCons(prefix, '-', Decimal(id));
    assert prefix + "-" + Decimal(id) == prefix + ['-'] + Decimal(id);
    var rest := Decimal(id);
    assert Split(rest, '-') == [rest];
    DecimalRoundTrip(id);
  }
}
