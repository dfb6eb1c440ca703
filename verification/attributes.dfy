/** File attribute bitmasks as they appear in an SMB directory-listing record.
    The field is 32 bits wide (section 2.6 of MS-FSCC, File Attributes). */
module Attributes {

  type FileAttributes = bv32

  const FILE_ATTRIBUTE_READONLY: FileAttributes := 0x0000_0001
  const FILE_ATTRIBUTE_HIDDEN: FileAttributes := 0x0000_0002
  const FILE_ATTRIBUTE_DIRECTORY: FileAttributes := 0x0000_0010
  const FILE_ATTRIBUTE_ARCHIVE: FileAttributes := 0x0000_0020
  const FILE_ATTRIBUTE_NORMAL: FileAttributes := 0x0000_0080

  /** The consumer's directory test: the mask, compared with the mask itself. */
  predicate IsDirectory(attrs: FileAttributes)
  {
    attrs & FILE_ATTRIBUTE_DIRECTORY == FILE_ATTRIBUTE_DIRECTORY
  }

  /** The test reads bit 4 and nothing else. */
  lemma IsDirectoryIsBitFour(attrs: FileAttributes)
    ensures IsDirectory(attrs) <==> (attrs >> 4) & 1 == 1
  {
  }

  /** Two masks that agree on the directory bit agree on the test, whatever
      their other bits are. */
  lemma IsDirectoryIgnoresOtherBits(a: FileAttributes, b: FileAttributes)
    requires a & FILE_ATTRIBUTE_DIRECTORY == b & FILE_ATTRIBUTE_DIRECTORY
    ensures IsDirectory(a) == IsDirectory(b)
  {
  }

  /** Setting the directory bit makes any mask a directory; clearing it makes
      any mask a non-directory. */
  lemma IsDirectorySetClear(attrs: FileAttributes)
    ensures IsDirectory(attrs | FILE_ATTRIBUTE_DIRECTORY)
    ensures !IsDirectory(attrs & !FILE_ATTRIBUTE_DIRECTORY)
  {
  }

  /** The usual attribute combinations of plain files carry no directory bit. */
  lemma PlainFileAttributesAreNotDirectories()
    ensures !IsDirectory(FILE_ATTRIBUTE_NORMAL)
    ensures !IsDirectory(FILE_ATTRIBUTE_ARCHIVE | FILE_ATTRIBUTE_READONLY | FILE_ATTRIBUTE_HIDDEN)
    ensures IsDirectory(FILE_ATTRIBUTE_DIRECTORY | FILE_ATTRIBUTE_HIDDEN)
  {
  }
}
