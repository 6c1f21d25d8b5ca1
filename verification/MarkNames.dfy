/** Names of mark files: a prefix code over volume IDs, and the scan for native marks. */
module MarkNames {

  type Byte = b: int | 0 <= b < 256

  const UNDERSCORE: Byte := 95
  const DOT: Byte := 46
  const MARK: seq<Byte> := [46, 109, 97, 114, 107]                                    // ".mark"
  const TMP: seq<Byte> := [46, 116, 109, 112]                                         // ".tmp"
  const FILESYSTEM: seq<Byte> := [102, 105, 108, 101, 115, 121, 115, 116, 101, 109, 47] // "filesystem/"

  /** Letters, digits, '.' and '-' stand for themselves. */
  predicate Plain(b: Byte) {
    97 <= b <= 122 || 65 <= b <= 90 || 48 <= b <= 57 || b == DOT || b == 45
  }

  function Hex(nibble: int): Byte
    requires 0 <= nibble < 16
  {
    if nibble < 10 then 48 + nibble else 87 + nibble
  }

  function EncodeByte(b: Byte): seq<Byte> {
    if Plain(b) then [b] else [UNDERSCORE, Hex(b / 16), Hex(b % 16)]
  }

  function Encode(id: seq<Byte>): seq<Byte>
    decreases |id|
  {
    if id == [] then [] else EncodeByte(id[0]) + Encode(id[1..])
  }

  function MarkName(id: seq<Byte>): seq<Byte> {
    Encode(id) + MARK
  }

  function TempName(id: seq<Byte>): seq<Byte> {
    MarkName(id) + TMP
  }

  lemma {:induction false} EncodeAppend(a: seq<Byte>, b: seq<Byte>)
    ensures Encode(a + b) == Encode(a) + Encode(b)
    decreases |a|
  {
    if a == [] {
      assert a + b == b;
    } else {
      assert (a + b)[1..] == a[1..] + b;
      EncodeAppend(a[1..], b);
    }
  }

  /** The builder loop of the file name. */
  method FencingFilename(id: seq<Byte>) returns (name: seq<Byte>)
    ensures name == MarkName(id)
  {
    name := [];
    for i := 0 to |id|
      invariant name == Encode(id[..i])
    {
      var c := id[i];
      assert id[..i + 1] == id[..i] + [c];
      EncodeAppend(id[..i], [c]);
      assert Encode([c]) == EncodeByte(c) + Encode([c][1..]) && [c][1..] == [];
      if Plain(c) {
        name := name + [c];
      } else {
        name := name + [UNDERSCORE];
        name := name + [Hex(c / 16)];
        name := name + [Hex(c % 16)];
      }
    }
    assert id[..|id|] == id;
    name := name + MARK;
  }

  // ------------------------------------------------------------ prefix code

  lemma ByteCodeIsPrefixFree(a: Byte, b: Byte, x: seq<Byte>, y: seq<Byte>)
    requires EncodeByte(a) + x <= EncodeByte(b) + y
    ensures a == b && x <= y
  {
    var u, v := EncodeByte(a) + x, EncodeByte(b) + y;
    assert u[0] == v[0];
    if !Plain(a) {
      assert u[1] == v[1] && u[2] == v[2];
      assert a == 16 * (a / 16) + a % 16 && b == 16 * (b / 16) + b % 16;
    }
    var n := |EncodeByte(a)|;
    assert u[n..] == x && v[n..] == y;
  }

  /** encode(a) is a prefix of encode(b) exactly when a is a prefix of b. */
  lemma {:induction false} EncodingIsAPrefixCode(a: seq<Byte>, b: seq<Byte>)
    ensures Encode(a) <= Encode(b) <==> a <= b
    decreases |a|
  {
    if a != [] && b != [] {
      EncodingIsAPrefixCode(a[1..], b[1..]);
      assert a == [a[0]] + a[1..] && b == [b[0]] + b[1..];
      if Encode(a) <= Encode(b) {
        ByteCodeIsPrefixFree(a[0], b[0], Encode(a[1..]), Encode(b[1..]));
      }
      if a <= b {
        assert a[1..] <= b[1..];
      }
    }
  }

  lemma DistinctIdsHaveDistinctFiles(a: seq<Byte>, b: seq<Byte>)
    requires MarkName(a) == MarkName(b)
    ensures a == b
  {
    var n := |Encode(a)|;
    assert MarkName(a)[..n] == Encode(a) && MarkName(b)[..n] == Encode(b);
    EncodingIsAPrefixCode(a, b);
    EncodingIsAPrefixCode(b, a);
  }

  // ---------------------------------------------------------- the inverse

  /** The value of a lower-case hexadecimal digit; 0 for any other byte. */
  function HexValue(b: Byte): nat {
    if 48 <= b <= 57 then b - 48 else if 97 <= b <= 102 then b - 87 else 0
  }

  /** Reads '_' and two hexadecimal digits as one byte, and any other byte as itself. */
  function Decode(name: seq<Byte>): seq<int>
    decreases |name|
  {
    if name == [] then []
    else if name[0] == 95 && |name| >= 3 then [16 * HexValue(name[1]) + HexValue(name[2])] + Decode(name[3..])
    else [name[0]] + Decode(name[1..])
  }

  lemma {:induction false} DecodeEncode(id: seq<Byte>)
    ensures |Decode(Encode(id))| == |id| && forall i | 0 <= i < |id| :: Decode(Encode(id))[i] == id[i]
    decreases |id|
  {
    if id != [] {
      DecodeEncode(id[1..]);
      var b, rest := id[0], Encode(id[1..]);
      var name := EncodeByte(b) + rest;
      assert name[|EncodeByte(b)|..] == rest;
      DecodesByte(b);
      assert Decode(name) == [b as int] + Decode(rest);
    }
  }

  lemma DecodesByte(b: Byte)
    ensures !Plain(b) ==>
              && EncodeByte(b) == [95, Hex(b / 16), Hex(b % 16)]
              && 16 * HexValue(Hex(b / 16)) + HexValue(Hex(b % 16)) == b
    ensures Plain(b) ==> b != 95
  {
  }

  /** Names stay readable: exactly the IDs of letters, digits, dots and dashes are their own names. */
  lemma {:induction false} ReadableIff(id: seq<Byte>)
    ensures Encode(id) == id <==> forall b | b in id :: Portable(b) && b != 95
    ensures |Encode(id)| >= |id| && (|Encode(id)| == |id| ==> Encode(id) == id)
    decreases |id|
  {
    if id != [] {
      ReadableIff(id[1..]);
      var rest := Encode(id[1..]);
      assert id == [id[0]] + id[1..];
      if Plain(id[0]) {
        assert Encode(id) == [id[0]] + rest;
        assert Encode(id) == id <==> rest == id[1..];
        assert forall b :: b in id <==> b == id[0] || b in id[1..];
      } else {
        assert id[0] in id && !(Portable(id[0]) && id[0] != 95);
      }
    }
  }

  /** Letters, digits, '.', '-' and '_'. */
  predicate Portable(b: Byte) {
    b == 45 || b == 46 || 48 <= b <= 57 || 65 <= b <= 90 || b == 95 || 97 <= b <= 122
  }

  /** A file name holds no path separator, so every mark lies in the state directory itself. */
  lemma {:induction false} NamesArePortable(id: seq<Byte>)
    ensures forall b | b in MarkName(id) :: Portable(b) && b != 47
    ensures forall b | b in TempName(id) :: Portable(b) && b != 47
    decreases |id|
  {
    if id != [] {
      NamesArePortable(id[1..]);
      assert Encode(id) == EncodeByte(id[0]) + Encode(id[1..]);
      assert forall b | b in Encode(id[1..]) :: b in MarkName(id[1..]);
    }
  }

  lemma MarkAndTempNamesNeverCollide(a: seq<Byte>, b: seq<Byte>)
    ensures MarkName(a) != TempName(b)
    ensures !(TempName(b)[|TempName(b)| - 5..] == MARK)
  {
    assert MarkName(a)[|MarkName(a)| - 1] == 107;
    assert TempName(b)[|TempName(b)| - 1] == 112;
  }

  lemma {:induction false} EncodingAddsNoDot(s: seq<Byte>)
    requires DOT !in s
    ensures DOT !in Encode(s)
    decreases |s|
  {
    if s != [] { EncodingAddsNoDot(s[1..]); }
  }

  /**
   The scan for one kind of resource: the file names that start with the
   encoded prefix are exactly those of IDs that start with it, because the
   suffix begins with a dot and the prefix has none.
   */
  lemma ScanSelectsByIdPrefix(prefix: seq<Byte>, id: seq<Byte>)
    requires DOT !in prefix
    ensures Encode(prefix) <= MarkName(id) <==> prefix <= id
  {
    EncodingAddsNoDot(prefix);
    EncodingIsAPrefixCode(prefix, id);
    assert MarkName(id)[|Encode(id)|] == DOT;
    if Encode(prefix) <= MarkName(id) {
      assert |Encode(prefix)| <= |Encode(id)|;
      assert MarkName(id)[..|Encode(id)|] == Encode(id);
    }
  }

  /** So the scan for "filesystem/" visits exactly the marks of native resources. */
  lemma ScanSelectsNativeMarks(id: seq<Byte>)
    ensures Encode(FILESYSTEM) <= MarkName(id) <==> FILESYSTEM <= id
  {
    ScanSelectsByIdPrefix(FILESYSTEM, id);
  }

  // -------------------------------------------------------------- the scan

  /** `active`: an open adoption of a ZFS dataset; `consistent`: its key names this very file. */
  datatype Content = Unreadable | Content(active: bool, consistent: bool)

  datatype File = MarkFile(id: seq<Byte>, content: Content) | TempFile(id: seq<Byte>) | SubDir(name: seq<Byte>)

  function Name(f: File): seq<Byte> {
    match f
    case MarkFile(id, _) => MarkName(id)
    case TempFile(id) => TempName(id)
    case SubDir(name) => name
  }

  predicate HasSuffix(s: seq<Byte>, suffix: seq<Byte>) {
    |suffix| <= |s| && s[|s| - |suffix|..] == suffix
  }

  datatype ScanResult = Active | Inactive | ScanFailed

  /** The mark of a resource whose ID starts with `prefix` ("filesystem/" for native ones). */
  predicate MarkOf(prefix: seq<Byte>, f: File) {
    f.MarkFile? && prefix <= f.id
  }

  lemma SelectedIffMarkOf(prefix: seq<Byte>, f: File)
    requires DOT !in prefix
    ensures !f.SubDir? && Encode(prefix) <= Name(f) && HasSuffix(Name(f), MARK) <==> MarkOf(prefix, f)
  {
    match f
    case MarkFile(id, _) =>
      ScanSelectsByIdPrefix(prefix, id);
      assert MarkName(id)[|MarkName(id)| - |MARK|..] == MARK;
    case TempFile(id) => MarkAndTempNamesNeverCollide(id, id);
    case SubDir(_) =>
  }

  /** Every mark before the i-th file is readable and inactive. */
  predicate QuietBefore(prefix: seq<Byte>, files: seq<File>, i: nat)
    requires i <= |files|
  {
    forall j | 0 <= j < i && MarkOf(prefix, files[j]) :: files[j].content.Content? && !files[j].content.active
  }

  /** The first mark that is not plainly inactive decides. */
  method HasActiveZfsFilesystemOwner(prefix: seq<Byte>, files: seq<File>) returns (r: ScanResult)
    requires DOT !in prefix
    ensures r != Inactive ==>
              exists i :: 0 <= i < |files| && MarkOf(prefix, files[i]) && QuietBefore(prefix, files, i) &&
                          if r == Active then files[i].content == Content(true, true)
                          else files[i].content.Unreadable? || files[i].content == Content(true, false)
    ensures r == Inactive <==>
            forall i | 0 <= i < |files| && MarkOf(prefix, files[i]) ::
              files[i].content.Content? && !files[i].content.active
  {
    var encoded := FencingFilename(prefix);
    encoded := encoded[..|encoded| - |MARK|];
    assert encoded == Encode(prefix);
    for k := 0 to |files|
      invariant QuietBefore(prefix, files, k)
    {
      var f := files[k];
      SelectedIffMarkOf(prefix, f);
      if f.SubDir? || !(encoded <= Name(f)) || !HasSuffix(Name(f), MARK) { continue; }
      if f.content.Unreadable? { return ScanFailed; }
      if f.content.active {
        if !f.content.consistent { return ScanFailed; }
        return Active;
      }
    }
    return Inactive;
  }
}
