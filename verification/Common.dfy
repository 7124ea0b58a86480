/** Values shared by the models: optional values, generation manifests and decimal numbers. */
module Common {
  datatype Option<+T> = None | Some(value: T)

  /** A generation name: the lower-case hexadecimal SHA-256 of a semantic manifest. */
  type Generation = string

  datatype ManifestEntry = ManifestEntry(path: string, mode: nat, sha256: string, size: nat)

  datatype Manifest = Manifest(version: nat, files: seq<ManifestEntry>, ddnsDesired: bool)

  // ---------- decimal numbers ----------

  function Digits(n: nat): string {
    if n < 10 then ["0123456789"[n]] else Digits(n / 10) + ["0123456789"[n % 10]]
  }

  function Decimal(n: int): string {
    if n < 0 then "-" + Digits(-n) else Digits(n)
  }

  predicate Digit(c: char) {
    '0' <= c <= '9'
  }

  lemma {:induction false} DigitsPlain(n: nat)
    ensures Digits(n) != "" && forall k :: 0 <= k < |Digits(n)| ==> Digit(Digits(n)[k])
  {
    if n >= 10 { DigitsPlain(n / 10); }
  }

  /** A decimal number read back, most significant digit first. */
  function Number(s: string): nat {
    if s == "" || !Digit(s[|s| - 1]) then 0
    else 10 * Number(s[..|s| - 1]) + (s[|s| - 1] as int - '0' as int)
  }

  lemma {:induction false} DigitsRead(n: nat)
    ensures Number(Digits(n)) == n
    decreases n
  {
    if n >= 10 {
      DigitsRead(n / 10);
      assert Digits(n)[..|Digits(n)| - 1] == Digits(n / 10);
    } else {
      assert Digits(n)[..0] == "";
    }
  }
}
