/** The recipient normaliser (`normalizePhoneToWhatsAppId`): keep the digits, apply the two
    Brazilian "extra 9" rules, and append the WhatsApp user suffix. */
module Phone {
  import opened Values

  const Suffix: string := "@c.us"
  const CountryCode: string := "55"

  /** `\d` in a JavaScript regular expression without the `u` flag: ASCII digits only. */
  predicate IsDigit(c: char)
  {
    '0' <= c <= '9'
  }

  predicate AllDigits(s: string)
  {
    forall i :: 0 <= i < |s| ==> IsDigit(s[i])
  }

  /** `String(raw).replace(/\D/g, '')`: the digits of `s`, in order. */
  function Digits(s: string): (d: string)
    ensures AllDigits(d)
    ensures |d| <= |s|
    ensures AllDigits(s) ==> d == s
    ensures (forall i :: 0 <= i < |s| ==> !IsDigit(s[i])) ==> d == ""
  {
    if s == [] then []
    else (if IsDigit(s[0]) then [s[0]] else []) + Digits(s[1..])
  }

  /** Removing non-digits distributes over concatenation. */
  lemma {:induction false} DigitsAppend(a: string, b: string)
    ensures Digits(a + b) == Digits(a) + Digits(b)
  {
    if a == [] {
      assert a + b == b;
    } else {
      var head := if IsDigit(a[0]) then [a[0]] else [];
      assert (a + b)[0] == a[0];
      assert (a + b)[1..] == a[1..] + b;
      DigitsAppend(a[1..], b);
      calc {
        Digits(a + b);
        head + Digits(a[1..] + b);
        head + (Digits(a[1..]) + Digits(b));
        (head + Digits(a[1..])) + Digits(b);
        Digits(a) + Digits(b);
      }
    }
  }

  /** The two "extra 9" rules, applied one after the other to the digit string. */
  function DropExtraNine(d: string): (r: string)
    ensures AllDigits(d) ==> AllDigits(r)
    ensures |d| == 11 ==> |r| >= 12 && r[..2] == CountryCode && (|r| == 12 <==> d[2] == '9') && (|r| == 13 <==> d[2] != '9')
    ensures |d| != 11 ==> |r| == |d| || (|d| == 13 && |r| == 12)
  {
    var d1 := if |d| == 11 then CountryCode + (if d[2] == '9' then d[..2] + d[3..] else d) else d;
    if |d1| == 13 && d1[..2] == CountryCode && d1[4] == '9' then d1[..4] + d1[5..] else d1
  }

  predicate EndsWith(s: string, t: string)
  {
    |t| <= |s| && s[|s| - |t|..] == t
  }

  /** normalizePhoneToWhatsAppId: None (null) for the empty string, otherwise the
      rewritten digits with "@c.us" appended unless already there. */
  function NormalizePhone(raw: string): (r: Option<string>)
    ensures r.None? <==> raw == ""
  {
    if raw == "" then None
    else
      var c := DropExtraNine(Digits(raw));
      Some(if EndsWith(c, Suffix) then c else c + Suffix)
  }

  /** Exactly what the rules do to a digit string: the 11-digit rule (drop a third '9',
      then prefix 55), the 13-digit rule (55 prefix and fifth digit '9': drop it), and the
      identity for every other digit string. The rules never both fire. */
  lemma ExtraNineRules(d: string)
    requires AllDigits(d)
    ensures |d| == 11 && d[2] == '9' ==> DropExtraNine(d) == CountryCode + d[..2] + d[3..]
    ensures |d| == 11 && d[2] != '9' ==> DropExtraNine(d) == CountryCode + d
    ensures |d| == 13 && d[..2] == CountryCode && d[4] == '9' ==> DropExtraNine(d) == d[..4] + d[5..]
    ensures |d| != 11 && !(|d| == 13 && d[..2] == CountryCode && d[4] == '9') ==> DropExtraNine(d) == d
    ensures AllDigits(DropExtraNine(d))
  {
    if |d| == 11 && d[2] != '9' {
      assert (CountryCode + d)[4] == d[2];
    }
  }

  /** A digit string the rules have been applied to is left alone by them. */
  lemma ExtraNineIdempotent(d: string)
    requires AllDigits(d)
    ensures DropExtraNine(DropExtraNine(d)) == DropExtraNine(d)
  {
    ExtraNineRules(d);
    var c := DropExtraNine(d);
    ExtraNineRules(c);
    if |d| == 11 && d[2] != '9' {
      assert c[4] == d[2];
    }
  }

  /** The output is a digit string followed by exactly one "@c.us": the rewritten digits
      of the input. */
  lemma NormalizeShape(raw: string)
    requires raw != ""
    ensures AllDigits(DropExtraNine(Digits(raw)))
    ensures NormalizePhone(raw) == Some(DropExtraNine(Digits(raw)) + Suffix)
  {
    var c := DropExtraNine(Digits(raw));
    ExtraNineRules(Digits(raw));
    DigitsLackSuffix(c);
  }

  /** A digit string never ends with "@c.us", so the suffix is always appended. */
  lemma DigitsLackSuffix(c: string)
    requires AllDigits(c)
    ensures !EndsWith(c, Suffix)
  {
    if |Suffix| <= |c| {
      var k := |c| - |Suffix|;
      assert c[k..][0] == c[k];
      assert IsDigit(c[k]);
      assert Suffix[0] == '@';
    }
  }

  /** Normalising a normalised address returns it unchanged. */
  lemma NormalizeIdempotent(raw: string)
    requires raw != ""
    ensures NormalizePhone(NormalizePhone(raw).value) == NormalizePhone(raw)
  {
    NormalizeShape(raw);
    var c := DropExtraNine(Digits(raw));
    var out := c + Suffix;
    DigitsAppend(c, Suffix);
    assert Digits(Suffix) == "" by {
      assert forall i :: 0 <= i < |Suffix| ==> !IsDigit(Suffix[i]);
    }
    assert Digits(out) == c;
    NormalizeShape(out);
    ExtraNineIdempotent(Digits(raw));
  }

  /** A Brazilian mobile number written as area code (two digits), the extra '9' and eight
      digits, with or without the "55" country code, normalises to the one chat id
      "55" + area code + eight digits + "@c.us". */
  lemma {:induction false} MobileWithAndWithoutCountryCode(area: string, line: string)
    requires |area| == 2 && |line| == 8 && AllDigits(area) && AllDigits(line)
    ensures NormalizePhone(area + "9" + line) == Some(CountryCode + area + line + Suffix)
    ensures NormalizePhone(CountryCode + area + "9" + line) == Some(CountryCode + area + line + Suffix)
  {
    var local := area + "9" + line;
    assert local[..2] == area && local[2] == '9' && local[3..] == line;
    assert AllDigits(local) by {
      assert forall i :: 0 <= i < |local| ==> local[i] == (if i < 2 then area[i] else if i == 2 then '9' else line[i - 3]);
    }
    NormalizeShape(local);
    ExtraNineRules(local);
    var full := CountryCode + area + "9" + line;
    assert full[..2] == CountryCode && full[4] == '9' && full[..4] == CountryCode + area && full[5..] == line;
    assert AllDigits(full) by {
      assert forall i :: 0 <= i < |full| ==> full[i] == (if i < 2 then CountryCode[i] else if i < 4 then area[i - 2] else if i == 4 then '9' else line[i - 5]);
    }
    NormalizeShape(full);
    ExtraNineRules(full);
  }
}
