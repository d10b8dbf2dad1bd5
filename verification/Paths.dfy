/** Database keys as text: `/bc-963/<address>/tx/<kind>/<nonce>`. */
module Paths {
  import opened Transactions
  import opened ScaledInteger

  const BASE: string := "/bc-963/"

  /** `GetTransactionPath`. */
  function PathText(p: Path): string {
    BASE + (p.address + "/" + ("tx/" + (p.kind + "/" + Decimal(p.nonce))))
  }

  /** A text is split at its first slash in one way only. */
  lemma FirstSlash(a: string, b: string, c: string, d: string)
    requires '/' !in a && '/' !in c && a + "/" + b == c + "/" + d
    ensures a == c && b == d
  {
    var s := a + "/" + b;
    assert s[|a|] == '/' && s[|c|] == '/';
    assert s[..|a|] == a && s[..|c|] == c;
    assert s[|a| + 1..] == b && s[|c| + 1..] == d;
  }

  lemma NoSlashAfter(a: string, b: string, c: string, d: string)
    requires '/' !in b && a + "/" + b == c + "/" + d
    ensures |c| <= |a|
  {
    var s := a + "/" + b;
    assert (c + "/" + d)[|c|] == '/';
    assert forall k :: |a| < k < |s| ==> s[k] == b[k - |a| - 1] && s[k] != '/';
  }

  /** And at its last. */
  lemma LastSlash(a: string, b: string, c: string, d: string)
    requires '/' !in b && '/' !in d && a + "/" + b == c + "/" + d
    ensures a == c && b == d
  {
    NoSlashAfter(a, b, c, d);
    NoSlashAfter(c, d, a, b);
    var s := a + "/" + b;
    assert s[..|a|] == a && s[..|a|] == c;
    assert s[|a| + 1..] == b && s[|a| + 1..] == d;
  }

  lemma DropPrefix(prefix: string, a: string, b: string)
    requires prefix + a == prefix + b
    ensures a == b
  {
    assert (prefix + a)[|prefix|..] == a;
    assert (prefix + b)[|prefix|..] == b;
  }

  /** Distinct paths have distinct keys as long as the addresses contain no slash,
      whatever the kinds; a structured path can stand for its key. */
  lemma PathTextInjective(p: Path, q: Path)
    requires '/' !in p.address && '/' !in q.address
    requires PathText(p) == PathText(q)
    ensures p == q
  {
    hide Decimal, Value;
    var pn, qn := Decimal(p.nonce), Decimal(q.nonce);
    var pr, qr := "tx/" + (p.kind + "/" + pn), "tx/" + (q.kind + "/" + qn);
    DropPrefix(BASE, p.address + "/" + pr, q.address + "/" + qr);
    FirstSlash(p.address, pr, q.address, qr);
    DropPrefix("tx/", p.kind + "/" + pn, q.kind + "/" + qn);
    assert AllDigits(pn) && AllDigits(qn);
    LastSlash(p.kind, pn, q.kind, qn);
    ValueOfDecimal(p.nonce);
    ValueOfDecimal(q.nonce);
  }
}
