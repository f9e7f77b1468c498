/**
 * The two character-class tests and `getPrintableBuf`, which shows a buffer
 * as `txt: <decoded text>` when every character is printable ASCII and as
 * `hex: <hex digits>` otherwise.
 *
 * JavaScript strings are UTF-16 code units and the regular expressions have
 * no `u` flag, so they test code units; here a string is a sequence of
 * Unicode scalar values. A character above U+FFFF (two surrogates in
 * JavaScript) is outside both classes either way, so the answers agree.
 */
module PrintableUtil {
  import opened Bytes
  import HexUtils

  /** Space through tilde, 0x20-0x7E. */
  predicate IsPrintableAscii(ch: char)
  {
    ' ' <= ch <= '~'
  }

  /** Controls 0x00-0x1F and 0x7F, zero-width and direction marks U+200B-U+200F, embeddings U+202A-U+202E, U+2060-U+206F and the byte-order mark U+FEFF. */
  predicate IsInvisibleUnicode(ch: char)
  {
    var c := ch as int;
    c <= 0x1F || c == 0x7F || 0x200B <= c <= 0x200F || 0x202A <= c <= 0x202E ||
    0x2060 <= c <= 0x206F || c == 0xFEFF
  }

  /** `hasNonPrintableAscii(s)`: a scan for the first character outside the printable ASCII range. */
  function HasNonPrintableAscii(s: string): (r: bool)
    ensures r <==> exists i :: 0 <= i < |s| && !IsPrintableAscii(s[i])
  {
    if s == [] then false
    else if !IsPrintableAscii(s[0]) then true
    else
      var r := HasNonPrintableAscii(s[1..]);
      assert r ==> exists i :: 0 <= i < |s| && !IsPrintableAscii(s[i]) by {
        if r {
          var i :| 0 <= i < |s[1..]| && !IsPrintableAscii(s[1..][i]);
          assert s[i + 1] == s[1..][i];
        }
      }
      assert (exists i :: 0 <= i < |s| && !IsPrintableAscii(s[i])) ==> r by {
        if exists i :: 0 <= i < |s| && !IsPrintableAscii(s[i]) {
          var i :| 0 <= i < |s| && !IsPrintableAscii(s[i]);
          assert s[1..][i - 1] == s[i];
        }
      }
      r
  }

  /** `hasNonPrintableUnicode(s)`: a scan for the first control or invisible formatting character. */
  function HasNonPrintableUnicode(s: string): (r: bool)
    ensures r <==> exists i :: 0 <= i < |s| && IsInvisibleUnicode(s[i])
  {
    if s == [] then false
    else if IsInvisibleUnicode(s[0]) then true
    else
      var r := HasNonPrintableUnicode(s[1..]);
      assert r ==> exists i :: 0 <= i < |s| && IsInvisibleUnicode(s[i]) by {
        if r {
          var i :| 0 <= i < |s[1..]| && IsInvisibleUnicode(s[1..][i]);
          assert s[i + 1] == s[1..][i];
        }
      }
      assert (exists i :: 0 <= i < |s| && IsInvisibleUnicode(s[i])) ==> r by {
        if exists i :: 0 <= i < |s| && IsInvisibleUnicode(s[i]) {
          var i :| 0 <= i < |s| && IsInvisibleUnicode(s[i]);
          assert s[1..][i - 1] == s[i];
        }
      }
      r
  }

  /** Every invisible character lies outside printable ASCII, so the second test never decides anything the first has not. */
  lemma UnicodeTestIsRedundant(s: string)
    ensures HasNonPrintableUnicode(s) ==> HasNonPrintableAscii(s)
  {
    if HasNonPrintableUnicode(s) {
      var i :| 0 <= i < |s| && IsInvisibleUnicode(s[i]);
      assert !IsPrintableAscii(s[i]);
    }
  }

  const TxtPrefix: string := "txt: "
  const HexPrefix: string := "hex: "

  /**
   * `getPrintableBuf(b)`; `utf8` stands for `b.toString("utf8")`. The text
   * form is chosen exactly when every decoded character is printable ASCII:
   * the prefix `txt: ` never sends a buffer to the hex form.
   */
  function GetPrintableBuf(b: seq<byte>, utf8: seq<byte> -> string): (r: string)
    ensures (forall i :: 0 <= i < |utf8(b)| ==> IsPrintableAscii(utf8(b)[i])) ==> r == TxtPrefix + utf8(b)
    ensures (exists i :: 0 <= i < |utf8(b)| && !IsPrintableAscii(utf8(b)[i])) ==> r == HexPrefix + HexUtils.BytesToHex(b)
  {
    var txt := TxtPrefix + utf8(b);
    UnicodeTestIsRedundant(txt);
    assert forall i :: 0 <= i < |utf8(b)| ==> txt[|TxtPrefix| + i] == utf8(b)[i];
    if HasNonPrintableAscii(txt) || HasNonPrintableUnicode(txt) then
      HexPrefix + HexUtils.BytesToHex(b)
    else
      txt
  }
}
