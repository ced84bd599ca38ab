/**
 * `CheckError(error, operation)`: the framework's single funnel for failing
 * system calls. A `noErr` status passes through silently. Any other status is
 * rendered into a 20-character buffer, either as the four-character code it
 * spells (in single quotes) or, when one of its bytes is not printable, as a
 * signed decimal number; one line `Error: <operation> (<text>)` is written to
 * the error stream, and the status is returned unchanged.
 */
module CheckError {
  import opened Wrappers
  import opened Status
  import opened Printf

  /** The size of the local `errorString` buffer. */
  const BufferSize: nat := 20

  const Quote: char := '\''

  /**
   * `isprint` in the C locale: space through tilde. A printable character is
   * never the terminator, a newline or a byte of 0x80 and above (which a signed
   * `char` would hold as a negative value).
   */
  predicate IsPrint(c: char)
    ensures IsPrint(c) ==> c != Nul && c != '\n' && c as int < 0x80
  {
    ' ' <= c <= '~'
  }

  /**
   * Slots 1..4 of the buffer after the store: the four bytes of the status,
   * most significant first, each read as a character. Reading them back as
   * bytes in that order gives the status's unsigned bits.
   */
  function FourCharCode(e: int32): (code: seq<char>)
    ensures |code| == 4 && forall i :: 0 <= i < 4 ==> code[i] as int < 256
    ensures BigEndianValue([code[0] as int as byte, code[1] as int as byte, code[2] as int as byte, code[3] as int as byte])
      == ToUInt32(e)
  {
    var b := StatusBytes(e);
    var code := [b[0] as int as char, b[1] as int as char, b[2] as int as char, b[3] as int as char];
    assert [code[0] as int as byte, code[1] as int as byte, code[2] as int as byte, code[3] as int as byte] == b;
    code
  }

  /**
   * The test that chooses the quoted form: every stored character is
   * printable, that is, every byte of the status lies in 0x20..0x7E.
   */
  predicate AllPrintable(e: int32)
    ensures AllPrintable(e) <==> forall i :: 0 <= i < 4 ==> 0x20 <= StatusBytes(e)[i] <= 0x7E
  {
    forall i :: 0 <= i < 4 ==> IsPrint(FourCharCode(e)[i])
  }

  /**
   * The shape of the quoted rendering: six characters, a quote at each end.
   * Text of that shape is never decimal text.
   */
  predicate IsQuoted(s: seq<char>)
    ensures IsQuoted(s) ==> ParseDecimal(s) == None
  {
    |s| == 6 && s[0] == Quote && s[5] == Quote
  }

  /**
   * The text `CheckError` prints for a status: the quoted four-character code
   * when all four bytes are printable, the decimal rendering otherwise.
   */
  function FormatStatus(e: int32): (s: seq<char>)
    ensures 1 <= |s| <= 11 && Nul !in s && '\n' !in s
    ensures IsQuoted(s) <==> AllPrintable(e)
    ensures !IsQuoted(s) ==> ParseDecimal(s) == Some(e as int)
  {
    if AllPrintable(e) then
      [Quote] + FourCharCode(e) + [Quote]
    else
      DecimalStringLength32(e as int);
      ParseDecimalRoundTrip(e as int);
      DecimalString(e as int)
  }

  /**
   * Reads a status back from its printed text: the quoted form by reassembling
   * the four inner characters most significant first, the decimal form by
   * parsing it. Text of neither form, or out of the 32-bit range, is rejected.
   */
  function ParseStatus(s: seq<char>): (r: Option<int32>)
    ensures r.Some? && IsQuoted(s) ==> r.value >= 0
  {
    if IsQuoted(s) && forall i :: 1 <= i <= 4 ==> s[i] as int < 256 then
      var u := BigEndianValue([s[1] as int as byte, s[2] as int as byte, s[3] as int as byte, s[4] as int as byte]);
      if u < 0x8000_0000 then Some(FromUInt32(u)) else None
    else
      match ParseDecimal(s)
      case None => None
      case Some(v) => if -0x8000_0000 <= v < 0x8000_0000 then Some(v as int32) else None
  }

  /**
   * A four-character code only arises from a positive status whose bytes all
   * lie in 0x20..0x7E; every negative status is printed in decimal.
   */
  lemma FourCharCodeRange(e: int32)
    ensures AllPrintable(e) ==> 0x2020_2020 <= e <= 0x7E7E_7E7E
    ensures e < 0 ==> !IsQuoted(FormatStatus(e))
  {
    if AllPrintable(e) {
      LeadingByteBoundsStatus(e);
    }
  }

  /** The printed text determines the status: parsing it gives the status back. */
  lemma FormatStatusRoundTrip(e: int32)
    ensures ParseStatus(FormatStatus(e)) == Some(e)
  {
    if AllPrintable(e) {
      FourCharCodeRange(e);
      StatusFromBytes(e);
    }
  }

  /** Two different statuses never print the same text. */
  lemma FormatStatusInjective(a: int32, b: int32)
    ensures FormatStatus(a) == FormatStatus(b) ==> a == b
  {
    FormatStatusRoundTrip(a);
    FormatStatusRoundTrip(b);
  }

  /**
   * The line `fprintf` writes for a failing operation: `Error: `, the
   * operation's C string, ` (`, the text, `)` and a newline. The operation and
   * the text can be read back at their fixed offsets, and when neither holds a
   * newline the only newline is the final character.
   */
  function ErrorLine(operation: seq<char>, text: seq<char>): (line: seq<char>)
    ensures |line| == |CString(operation)| + |text| + 11
    ensures line[..7] == "Error: " && line[|line| - 2..] == ")\n"
    ensures line[7..7 + |CString(operation)|] == CString(operation)
    ensures line[|line| - 2 - |text|..|line| - 2] == text
    ensures '\n' !in CString(operation) && '\n' !in text ==>
      forall i :: 0 <= i < |line| - 1 ==> line[i] != '\n'
  {
    "Error: " + CString(operation) + " (" + text + ")\n"
  }

  /**
   * Fills the 20-character buffer as `CheckError` does: the big-endian store
   * of the status at indices 1..4, then either the quotes and terminator at
   * indices 0, 5 and 6 or `sprintf` of the decimal rendering from index 0.
   * Afterwards the buffer holds the formatted text and its terminator; past
   * the terminator only the bytes of the store remain changed.
   */
  method FormatInto(e: int32, errorString: array<char>)
    requires errorString.Length == BufferSize
    modifies errorString
    ensures errorString[..|FormatStatus(e)|] == FormatStatus(e)
    ensures errorString[|FormatStatus(e)|] == Nul
    ensures forall k :: |FormatStatus(e)| < k < BufferSize ==>
      errorString[k] == if 1 <= k <= 4 then FourCharCode(e)[k - 1] else old(errorString[k])
  {
    var code := FourCharCode(e);
    errorString[1], errorString[2], errorString[3], errorString[4] := code[0], code[1], code[2], code[3];
    if IsPrint(errorString[1]) && IsPrint(errorString[2]) && IsPrint(errorString[3]) && IsPrint(errorString[4]) {
      errorString[0] := Quote;
      errorString[5] := Quote;
      errorString[6] := Nul;
      assert errorString[..6] == [Quote] + code + [Quote];
    } else {
      DecimalStringLength32(e as int);
      SprintDecimal(errorString, e as int);
    }
  }

  /** The process's standard error stream: the lines written to it so far. */
  class ErrorStream {
    var lines: seq<seq<char>>

    constructor ()
      ensures lines == []
    {
      lines := [];
    }

    /**
     * Returns the status it is given. On `noErr` nothing is written; on any
     * other status exactly one line naming the operation and the formatted
     * status is appended.
     */
    method CheckError(error: int32, operation: seq<char>) returns (r: int32)
      modifies this
      ensures r == error
      ensures error == NoErr ==> lines == old(lines)
      ensures error != NoErr ==> lines == old(lines) + [ErrorLine(operation, FormatStatus(error))]
    {
      if error == NoErr {
        return NoErr;
      }
      var errorString := new char[BufferSize];
      FormatInto(error, errorString);
      var text := ReadCString(errorString);
      lines := lines + [ErrorLine(operation, text)];
      return error;
    }
  }
}
