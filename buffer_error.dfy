/** The error taxonomy shared by every addressable buffer (`BufferError` in
    src/lib.rs) and the diagnostic text each error renders to. */
module BufferErrors {
  import opened Decimal

  /** One failure of a buffer read. `X` stands for the external-memory
      backend's own error type (`E::ExternalMemoryError`); `External` wraps
      it without reinterpreting it. Positions and lengths are `usize` in the
      source. */
  datatype BufferError<X> =
    | DataTooShort(position: nat, minimalLength: nat)
    | External(cause: X)
    | OutOfRange(position: nat, totalLength: nat)

  // The message pieces. The longest is assembled from shorter literals.
  const TooShortHead := "Data is too short for expected content. " + "Expected at least "
  const TooShortMiddle := " element(s) after position "
  const ExternalHead := "Error accessing " + "external memory. "
  const OutOfRangeHead := "Position "
  const OutOfRangeMiddle := " is out of range for data length "

  /** `BufferError::error_text`: the message of each variant, numbers in
      decimal. `display` is the backend error's own `Display` text. */
  function ErrorText<X>(err: BufferError<X>, display: X -> string): (text: string)
  {
    match err
    case DataTooShort(position, minimalLength) =>
      TooShortHead + NatToDecimal(minimalLength) + TooShortMiddle + NatToDecimal(position) + "."
    case External(e) =>
      ExternalHead + display(e)
    case OutOfRange(position, totalLength) =>
      OutOfRangeHead + NatToDecimal(position) + OutOfRangeMiddle + NatToDecimal(totalLength) + "."
  }

  /** Cancelling a common prefix. */
  lemma PrefixCancel(h: string, s: string, t: string)
    requires h + s == h + t
    ensures s == t
  {
    assert s == (h + s)[|h|..];
    assert t == (h + t)[|h|..];
  }

  /** `head + d + middle + e + "."` regrouped to the right. */
  lemma Regroup(head: string, d: string, middle: string, e: string)
    ensures head + d + middle + e + "." == head + (d + (middle + (e + ".")))
  {
  }

  /** `head + d1 + middle + d2 + "."` determines both numbers when `middle`
      starts with a non-digit. */
  lemma TwoNumberMessageUnique(head: string, middle: string, m1: nat, p1: nat, m2: nat, p2: nat)
    requires middle != [] && !IsDigit(middle[0])
    requires head + NatToDecimal(m1) + middle + NatToDecimal(p1) + "."
          == head + NatToDecimal(m2) + middle + NatToDecimal(p2) + "."
    ensures m1 == m2 && p1 == p2
  {
    var d1, e1 := NatToDecimal(m1), NatToDecimal(p1);
    var d2, e2 := NatToDecimal(m2), NatToDecimal(p2);
    Regroup(head, d1, middle, e1);
    Regroup(head, d2, middle, e2);
    PrefixCancel(head, d1 + (middle + (e1 + ".")), d2 + (middle + (e2 + ".")));
    DigitRunUnique(d1, middle + (e1 + "."), d2, middle + (e2 + "."));
    PrefixCancel(middle, e1 + ".", e2 + ".");
    DigitRunUnique(e1, ".", e2, ".");
    NatToDecimalInjective(m1, m2);
    NatToDecimalInjective(p1, p2);
  }

  /** The first character of each variant's message. */
  function Initial<X>(err: BufferError<X>): char {
    match err
    case DataTooShort(_, _) => 'D'
    case External(_) => 'E'
    case OutOfRange(_, _) => 'P'
  }

  lemma ErrorTextInitial<X>(err: BufferError<X>, display: X -> string)
    ensures |ErrorText(err, display)| > 0 && ErrorText(err, display)[0] == Initial(err)
  {
    var t := ErrorText(err, display);
    match err
    case DataTooShort(p, m) =>
      Regroup(TooShortHead, NatToDecimal(m), TooShortMiddle, NatToDecimal(p));
      assert t[0] == TooShortHead[0] == 'D';
    case External(e) =>
      assert t[0] == ExternalHead[0];
    case OutOfRange(p, l) =>
      Regroup(OutOfRangeHead, NatToDecimal(p), OutOfRangeMiddle, NatToDecimal(l));
      assert t[0] == OutOfRangeHead[0];
  }

  /** The message identifies the error: two errors render to the same text
      exactly when they are the same bounds error, or both wrap backend errors
      whose own texts coincide. Every variant's message starts with a
      different letter, so no message of one variant is that of another. */
  lemma ErrorTextIdentifiesError<X>(a: BufferError<X>, b: BufferError<X>, display: X -> string)
    ensures ErrorText(a, display) == ErrorText(b, display) <==>
      if a.External? then b.External? && display(a.cause) == display(b.cause) else a == b
  {
    ErrorTextInitial(a, display);
    ErrorTextInitial(b, display);
    if ErrorText(a, display) == ErrorText(b, display) {
      match a
      case DataTooShort(p1, m1) =>
        TwoNumberMessageUnique(TooShortHead, TooShortMiddle, m1, p1, b.minimalLength, b.position);
      case External(e1) =>
        PrefixCancel(ExternalHead, display(e1), display(b.cause));
      case OutOfRange(p1, l1) =>
        TwoNumberMessageUnique(OutOfRangeHead, OutOfRangeMiddle, p1, l1, b.position, b.totalLength);
    }
  }

  /** A too-short read of two bytes at position 3 and its message. (The
      expected text is written in the pieces the message is assembled
      from.) */
  lemma DataTooShortExample<X>(display: X -> string)
    ensures ErrorText(DataTooShort(3, 2), display)
         == "Data is too short for expected content. " + "Expected at least "
            + "2" + " element(s) after position " + "3" + "."
  {
    assert NatToDecimal(2) == "2";
    assert NatToDecimal(3) == "3";
  }

  /** Multi-digit numbers are printed most significant digit first. */
  lemma OutOfRangeExample<X>(display: X -> string)
    ensures ErrorText(OutOfRange(4096, 170), display)
         == "Position " + "4096" + " is out of range for data length " + "170" + "."
  {
    assert NatToDecimal(4096) == "4096";
    assert NatToDecimal(170) == "170";
  }

  /** The message of a wrapped backend error is the fixed head followed by
      the backend's own text. */
  lemma ExternalExample<X>(e: X, display: X -> string)
    ensures ErrorText(External(e), display) == "Error accessing external memory. " + display(e)
  {
  }
}
