/**
 * The filename checks of the storage helpers: `allowed_file` and
 * `generate_unique_filename`. The random part of a generated name, `uuid.uuid4().hex`,
 * is a parameter: 32 lower-case hexadecimal digits of a version-4 UUID (section 4.4
 * of RFC 4122).
 */
module AwsUtils {
  import opened Wrappers
  import opened Text

  const AllowedExtensions: set<string> := {"png", "jpg", "jpeg", "gif"}

  /** `filename.rsplit('.', 1)[1]`: the text after the last '.', None when there is no '.'. */
  function Extension(filename: string): (r: Option<string>)
    ensures r.None? <==> '.' !in filename
    ensures r.Some? ==> '.' !in r.value && exists i :: 0 <= i < |filename| && filename[i] == '.' &&
                                             filename[i + 1..] == r.value
  {
    match LastIndexOf(filename, '.')
    case None => None
    case Some(i) => Some(filename[i + 1..])
  }

  /** `allowed_file`. */
  predicate AllowedFile(filename: string): (b: bool)
    ensures b <==> exists i :: 0 <= i < |filename| && filename[i] == '.' && '.' !in filename[i + 1..] &&
                               Lower(filename[i + 1..]) in AllowedExtensions
  {
    ExtensionAfterLastDot(filename);
    '.' in filename && Lower(Extension(filename).value) in AllowedExtensions
  }

  /** A '.' with no '.' after it marks the extension. */
  lemma ExtensionAfterLastDot(filename: string)
    ensures forall i :: 0 <= i < |filename| && filename[i] == '.' && '.' !in filename[i + 1..] ==>
              Extension(filename) == Some(filename[i + 1..])
  {
    forall i | 0 <= i < |filename| && filename[i] == '.' && '.' !in filename[i + 1..]
      ensures Extension(filename) == Some(filename[i + 1..])
    {
      forall j | i < j < |filename| ensures filename[j] != '.' {
        assert filename[j] == filename[i + 1..][j - i - 1];
      }
      LastIndexOfIs(filename, '.', i);
    }
  }

  predicate IsHexDigit(c: char) {
    '0' <= c <= '9' || 'a' <= c <= 'f'
  }

  /** `uuid.uuid4().hex`: 32 hex digits, version nibble 4, variant nibble 8, 9, a or b. */
  predicate IsUuid4Hex(hex: string) {
    && |hex| == 32
    && (forall i :: 0 <= i < |hex| ==> IsHexDigit(hex[i]))
    && hex[12] == '4'
    && hex[16] in {'8', '9', 'a', 'b'}
  }

  /** `generate_unique_filename`: None stands for the IndexError raised on a name without '.'. */
  function GenerateUniqueFilename(hex: string, filename: string): (r: Option<string>)
    requires IsUuid4Hex(hex)
    ensures r.None? <==> '.' !in filename
    ensures r.Some? ==> |r.value| > |hex| && r.value[..|hex|] == hex && r.value[|hex|] == '.'
    ensures r.Some? ==> forall i :: 0 <= i < |r.value| ==> (r.value[i] == '.' <==> i == |hex|)
    ensures r.Some? ==> Extension(r.value) == Some(Lower(Extension(filename).value))
  {
    match Extension(filename)
    case None => None
    case Some(ext) =>
      var name := hex + "." + Lower(ext);
      assert forall i :: 0 <= i < |name| && i != |hex| ==> name[i] != '.';
      LastIndexOfIs(name, '.', |hex|);
      Some(name)
  }

  /** A name accepted by `allowed_file` is still accepted once renamed, with the same
      lower-cased extension. */
  lemma RenamedStaysAllowed(hex: string, filename: string)
    requires IsUuid4Hex(hex) && AllowedFile(filename)
    ensures GenerateUniqueFilename(hex, filename).Some?
    ensures AllowedFile(GenerateUniqueFilename(hex, filename).value)
  {
    var name := GenerateUniqueFilename(hex, filename).value;
    LowerIdempotent(Extension(filename).value);
    assert '.' in name by {
      assert name[|hex|] == '.';
    }
  }

  lemma LastDotOfLower(s: string)
    ensures LastIndexOf(Lower(s), '.') == LastIndexOf(s, '.')
  {
    if s != [] {
      assert Lower(s)[..|s| - 1] == Lower(s[..|s| - 1]);
      LastDotOfLower(s[..|s| - 1]);
    }
  }

  /** The check ignores case: a name and its lower-cased form get the same answer. */
  lemma AllowedFileIgnoresCase(filename: string)
    ensures AllowedFile(Lower(filename)) == AllowedFile(filename)
  {
    LastDotOfLower(filename);
    match LastIndexOf(filename, '.')
    case None =>
    case Some(i) =>
      assert Lower(filename)[i + 1..] == Lower(filename[i + 1..]);
      LowerIdempotent(filename[i + 1..]);
      assert '.' in Lower(filename) by {
        assert Lower(filename)[i] == '.';
      }
  }

  /** Only the text after the last '.' decides: "a.tar.PNG" is allowed. */
  lemma AllowedFileExamples()
    ensures AllowedFile("a.tar.PNG")
    ensures !AllowedFile("x.png.exe")
    ensures !AllowedFile("photo.")
    ensures !AllowedFile("png")
  {
    AllowedExample();
    RefusedExtension();
    EmptyExtension();
    assert Extension("png") == None;
  }

  lemma AllowedExample()
    ensures AllowedFile("a.tar.PNG")
  {
    assert Extension("a.tar.PNG") == Some("PNG");
    assert Lower("PNG") == "png";
  }

  lemma RefusedExtension()
    ensures !AllowedFile("x.png.exe")
  {
    assert Extension("x.png.exe") == Some("exe");
    assert Lower("exe") == "exe";
  }

  lemma EmptyExtension()
    ensures !AllowedFile("photo.")
  {
    assert Extension("photo.") == Some("");
  }
}
