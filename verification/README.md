# Proofs about the emulator's external code

A Dafny model of the algorithmic code the emulator carries in `externals/`, with proofs of what each
part is for. A decoder written from the public standard, or the repository's own decoder, is a pure
function; the encoder is modelled with its loops, buffers and in-place updates; the main theorems
connect the two for every input.

| part | files | what is proved |
|---|---|---|
| zlib/DEFLATE writer | `Inflate`, `DeflateCodes`, `Lz77`, `Deflate`, `Adler`, `Zlib` | inflating the output gives the input back, and the size bound |
| PNG filters | `Png` | inflating and unfiltering rebuilds the image |
| TGA and HDR writers | `Sequences`, `Tga`, `Hdr` | the packets expand to the pixels |
| JPEG entropy coder | `JpegBits`, `JpegCode`, `JpegScan`, `JpegSymbols`, `JpegTables`, `JpegArrays`, `JpegImage`, `JpegHeader`, `JpegFile` | a reader that takes sampling, tables and their use from the bytes of the file gets all blocks back |
| getopt | `GetoptGrammar`, `Getopt`, `GetoptRun`, `GetoptOrder`, `GetoptScanner`, `GetoptSpelling` | every spelled command line is read as meant; what a whole run reports and how it leaves argv |
| BC1 and alpha blocks | `BcAlpha`, `BcColor`, `BcSingle`, `BcRefine`, `BcSolve`, `BcEncode` | encoder choices are best for the decoder; single colours come back within 1; the refinement solves a least-squares system and never divides by zero |
| BC6H and BC7 decoders | `BcTables`, `Bc6hRegister`, `Bc6hModes`, `Bc6hHeader`, `Bc6hValues`, `Bc6hEndpoints`, `Bc6h`, `Bc6hSigned`, `Bc6hMeaning`, `Bc6hLayout`, `Bc7`, `Bc7Block` | bit accounting over the 128 bits, texels in terms of the stored numbers, finite results |
| profiler | `ProfilerLog`, `ProfilerRing`, `ProfilerTime`, `ProfilerFlip`, `ProfilerCase` | what a drain reads and charges while entries keep arriving; time is conserved |
| bump allocator | `Bump` | disjoint memory and exact release over any run |

`Bits` holds the laws of shifts, masks and bit strings the others share. `dafny verify dfyconfig.toml`
checks everything.

Some properties hold only in part, and the exact condition is proved:

- An empty input to the zlib writer produces a stream no reader accepts, because the size test then
  picks the stored path, which writes no block (`Zlib.Compress`, `Zlib.EmptyStreamFails`).
- A signed BC6H block with 16-bit endpoints can decode to minus infinity; when a texel is finite is
  told exactly from its stored base, difference and index (`Bc6hSigned.BlockFiniteIff`,
  `Bc6h.SixteenBitsNotFinite`).
- A single colour is not always given back: 120 of the 256 five-bit and 36 of the 256 six-bit values
  come back off by 1. For five bits no endpoints do better; for six bits 25 of them could be met by
  endpoints further apart, although the code calls the match optimal (`BcSingle.Single5`,
  `BcSingle.Single6`, `BcSingle.Best5`, `BcSingle.Best6Iff`).
- The profiler times a scope from the ring slot of its enter entry. Once BUFFER_SIZE more entries have
  come, another entry is there, and the duration is right only if its tick happens to be the same
  (`ProfilerFlip.ScopeTimedIff`, `ProfilerCase.OpenTooLong`).
- The stack guard of the profiler lets a 32nd nested scope write one element beyond the array of child
  ticks (`ProfilerTime.Accountant.EnterScope`, `ProfilerTime.EntersTooDeep`).
- A JPEG header keeps each dimension in 16 bits, and exactly the images that fit are read back
  (`JpegFile.WriteImage`).
- The JPEG writer has no code for a DC difference of 2048 or more and for another coefficient of 1024 or
  more in magnitude (`JpegImage.ScanFitsIff`).
- A long option with value -1 ends the usual loop over getopt early (`GetoptScanner.ReadAll`).
- The bump allocator's rounding mask has 32 bits, so requests above 4 GiB - 16 get less memory than
  asked for (`Bump.RoundCovers`).

Where a comment and the code differ the code is followed. A TGA raw packet ends where a pixel equals
the one two before it, not the one before it, so a raw packet may hold equal neighbours; the result
still expands to the row (`Tga.NextPacket`).

Integers are unbounded in Dafny. Where the code depends on a width the model writes it out: the
32-bit bit buffers, the unreduced Adler sums, the 16-bit magnitude bits, the 16-bit half floats, the
48-bit ticks and the 32-bit masks.

## Model

| member | source | states |
|---|---|---|
| `Zlib.Compress` | externals/stb/stb_image_write.h:895-1022 | main result: for every input and quality an RFC 1950/1951 reader of the output gets exactly the input back if and only if the input is not empty; and the output is at most data_len + 6 + 5*ceil(data_len/32767) bytes |
| `Zlib.EmptyStreamFails` | externals/stb/stb_image_write.h:985-999 | with no data the size test picks the stored path, which emits no block, and a reader rejects the stream |
| `Zlib.FixedBlock` | externals/stb/stb_image_write.h:913-978 | the compressed block is header, codes of a token sequence that expands to the input, end-of-block code and fewer than 8 zero bits |
| `Zlib.FixedStreamBack` | externals/stb/stb_image_write.h:913-978 | a stream of fixed codes for tokens that expand to the data, padded and followed by the checksum, is read back as the data |
| `Zlib.Step` | externals/stb/stb_image_write.h:922-971 | one turn of the main loop sends tokens for exactly the bytes it passes over and keeps every recorded position before the cursor |
| `Zlib.StoreBlocks` | externals/stb/stb_image_write.h:985-999 | the fallback writes stored blocks of at most 32767 bytes that cover the input in order, the last one marked final, and never beyond the bytes the buffer has held already |
| `Zlib.StoredStreamBack` | externals/stb/stb_image_write.h:985-999 | a header, the stored blocks and the checksum are read back as the data for every non-empty input |
| `Zlib.StoredSize` | externals/stb/stb_image_write.h:985-999 | the stored form takes one byte per input byte and five per block |
| `Adler.Checksum` | externals/stb/stb_image_write.h:1001-1016 | summing in blocks of 5552 bytes and reducing afterwards gives the per-byte Adler-32 of every input; the loop ends although its first block may be empty |
| `Adler.SumBlock` | externals/stb/stb_image_write.h:1006-1011 | inside a block neither unreduced sum leaves 32 bits, and reducing them gives the checksum of the longer prefix |
| `DeflateCodes.LitLenBack` | externals/stb/stb_image_write.h:880-889 | the fixed literal/length codes are prefix-free: decoding a code followed by anything gives its symbol and the rest |
| `DeflateCodes.TokenBack` | externals/stb/stb_image_write.h:957-970 | the bits of any literal or match (length 3..258, distance 1..32767) decode to that token, whatever follows |
| `DeflateCodes.FixedBlockBack` | externals/stb/stb_image_write.h:957-975 | the bits of a token sequence and the end-of-block code inflate to the expansion of the tokens |
| `DeflateCodes.CopyExtends` | externals/stb/stb_image_write.h:957-966 | copying a match whose source bytes agree, overlapping or not, extends the output to the longer prefix |
| `Deflate.BitWriter.Add` | externals/stb/stb_image_write.h:879-881 | or-ing a code in above the pending bits and flushing appends exactly its bits, least significant first, with fewer than 8 bits pending |
| `Deflate.BitWriter.Flush` | externals/stb/stb_image_write.h:839-847 | moving whole bytes out of the bit buffer changes no bit of what was written |
| `Deflate.BitRev` | externals/stb/stb_image_write.h:849-857 | reversing a code makes its bits go out most significant first |
| `Deflate.BitWriter.Huff` | externals/stb/stb_image_write.h:882-889 | sends the fixed code of a symbol |
| `Deflate.BitWriter.AddToken` | externals/stb/stb_image_write.h:957-970 | sends the bits of a token |
| `Deflate.BitWriter.Pad` | externals/stb/stb_image_write.h:976-978 | padding ends on a byte boundary after fewer than 8 bits |
| `Deflate.FindLength` | externals/stb/stb_image_write.h:960-962 | the table search finds the length code whose range holds the length, and the extra bits fit |
| `Deflate.FindDist` | externals/stb/stb_image_write.h:963-965 | the table search finds the distance code whose range holds the distance, and the extra bits fit |
| `Lz77.CountMatch` | externals/stb/stb_image_write.h:859-865 | counts the common bytes of an earlier position and the cursor, at most 258 |
| `Lz77.LongestMatch` | externals/stb/stb_image_write.h:924-933 | a match is reported only inside the 32K window and with its true length, at least 3, and no recorded position in the window matches longer |
| `Lz77.ChooseToken` | externals/stb/stb_image_write.h:924-970 | the token chosen is valid and reproduces the bytes it stands for; a match is given up only when the next byte has a longer one |
| `Lz77.Record` | externals/stb/stb_image_write.h:934-939 | recording a position keeps every bucket filled with earlier positions and no longer than twice the quality, also when half the bucket is dropped |
| `Png.WriteImageData` | externals/stb/stb_image_write.h:1146-1176 | main result: for every buffer, stride, flip setting and filter choice, inflating and unfiltering by section 6 of RFC 2083 rebuilds all rows |
| `Png.UnfilterBack` | externals/stb/stb_image_write.h:1146-1174 | unfiltering the filtered scanlines in order rebuilds the rows, whatever filter each row used |
| `Png.ReconBack` | externals/stb/stb_image_write.h:1092-1126 | reconstruction undoes each of the five filters on any row over any prior row |
| `Png.Paeth` | externals/stb/stb_image_write.h:1083-1089 | the predictor is the one of left, above and above left nearest to left + above - above left, the first in that order on a tie |
| `Png.Predict` | externals/stb/stb_image_write.h:1117-1125 | the average is the half sum rounded down, and the last filter predicts the nearest of the three neighbours |
| `Png.EncodeLine` | externals/stb/stb_image_write.h:1092-1126 | fills the line with the filtered row over the row above, in the flipped order too; the row above the first is zero |
| `Png.PixelCases` | externals/stb/stb_image_write.h:1094-1125 | the replaced filter codes of the first row agree with the standard filters over a zero row |
| `Png.BestFilter` | externals/stb/stb_image_write.h:1152-1169 | picks a filter whose sum of magnitudes no other filter undercuts, sums of 0x7fffffff or more not competing, and leaves that filter's line in the buffer |
| `Png.FilterImage` | externals/stb/stb_image_write.h:1146-1174 | writes, row after row, a filter byte from 0 to 4 and the filtered row; unfiltering them rebuilds the rows |
| `Tga.WriteImage` | externals/stb/stb_image_write.h:559-605 | main result: the packets of an image, flipped or not, expand to its pixels in stored order and leave whatever follows |
| `Tga.WriteRow` | externals/stb/stb_image_write.h:559-604 | the packets of a row expand to the row in front of any further packets |
| `Tga.NextPacket` | externals/stb/stb_image_write.h:563-591 | a packet has 1..128 pixels, a run is 2..128 equal pixels and stops at the first different one, and a raw packet starts where two pixels differ |
| `Hdr.WriteHdrScanline` | externals/stb/stb_image_write.h:672-757 | main result: scanlines of every width, run-length coded from 8 to 32767 and flat otherwise, are read back in front of anything |
| `Hdr.WriteComponent` | externals/stb/stb_image_write.h:721-757 | the dumps and runs of one component expand to its bytes |
| `Hdr.FindRun` | externals/stb/stb_image_write.h:727-735 | finds the first three equal bytes, the width if there are none |
| `Hdr.WriteRuns` | externals/stb/stb_image_write.h:743-754 | runs of 1..127 bytes expand to the repeated byte |
| `Hdr.WriteDumps` | externals/stb/stb_image_write.h:736-742 | dumps of 1..128 bytes expand to the bytes copied |
| `JpegFile.WriteImage` | externals/stb/stb_image_write.h:1474-1602 | main result: a reader by sections B.2 and F.2.2 of ITU-T T.81 that takes the dimensions, the sampling factors, the table definitions and, from the selectors of the scan header, the tables of each component out of the bytes gets every block of the image back if and only if both dimensions are below 65536; nothing is written for an empty image |
| `JpegFile.WriteHeader` | externals/stb/stb_image_write.h:1499-1519 | the header arrays and tables sent one after the other are the segments a reader finds, with the lengths that belong to them |
| `JpegFile.HeaderBack` | externals/stb/stb_image_write.h:1499-1519 | reading the header gives the frame with its dimensions modulo 65536 and sampling factors, the four definitions under their class and destination, and the selectors of the three components |
| `JpegFile.ListsOfHeader` | externals/stb/stb_image_write.h:1500-1519 | the selectors of the scan header lead each component to the table the writer uses for it |
| `JpegFile.SegmentsBack` | externals/stb/stb_image_write.h:1499-1519 | frame, definitions and scan header are read back from their segments, the others are passed over |
| `JpegFile.OrderOfFrame` | externals/stb/stb_image_write.h:1533-1592 | the sampling factors stand for the order of data units: four or one of luminance, then one of each chrominance |
| `JpegFile.OrderOfAll` | externals/stb/stb_image_write.h:1533-1592 | the units sent for all coded units follow that order |
| `JpegFile.Collect` | externals/stb/stb_image_write.h:1533-1592 | the loops over rows and columns visit as many coded units as a reader counts from the dimensions |
| `JpegFile.CountIff` | externals/stb/stb_image_write.h:1501-1502 | the dimensions kept in 16 bits count the same coded units exactly if both fit |
| `JpegHeader.TableBack` | externals/stb/stb_image_write.h:1508-1518 | a table definition in the header is read back with its counts and values |
| `JpegImage.TablesAgree` | externals/stb/stb_image_write.h:1400-1462 | all four code arrays are the tables the header defines, entry by entry, and are prefix-free |
| `JpegImage.ScanFitsIff` | externals/stb/stb_image_write.h:1355-1396 | the arrays have a code for everything a scan needs exactly if every DC difference is below 2048 and every other coefficient below 1024 in magnitude |
| `JpegImage.BlockFitsIff` | externals/stb/stb_image_write.h:1355-1396 | the same for one block |
| `JpegArrays.YacTable` | externals/stb/stb_image_write.h:1427-1444 | YAC_HT is the table of the luminance AC definition |
| `JpegArrays.UvacTable` | externals/stb/stb_image_write.h:1445-1462 | UVAC_HT is the table of the chrominance AC definition |
| `JpegArrays.YdcTable` | externals/stb/stb_image_write.h:1425 | YDC_HT is the table of the luminance DC definition |
| `JpegArrays.UvdcTable` | externals/stb/stb_image_write.h:1426 | UVDC_HT is the table of the chrominance DC definition |
| `JpegScan.WriteScan` | externals/stb/stb_image_write.h:1522-1602 | for any prefix-free tables: removing the stuffed zeros up to the marker and decoding by section F.2.2 of ITU-T T.81, with a table and a prediction for each component number, gives every block back, with fewer than 8 filling bits left |
| `JpegScan.ProcessUnit` | externals/stb/stb_image_write.h:1355-1396 | one data unit appends exactly the bits of its DC difference, zero runs, values and end symbol, and returns its DC coefficient |
| `JpegCode.BlockBack` | externals/stb/stb_image_write.h:1355-1396 | the bits of a block decode to its 64 coefficients, whatever follows |
| `JpegCode.ItemsRebuild` | externals/stb/stb_image_write.h:1371-1395 | zero runs, runs of sixteen, values and the end symbol rebuild the coefficients |
| `JpegCode.SymbolBack` | externals/stb/stb_image_write.h:1355-1396 | with a prefix-free table the code of a symbol decodes to that symbol |
| `JpegScan.ScanBack` | externals/stb/stb_image_write.h:1522-1597 | a sequence of units with a prediction per component decodes to all its blocks |
| `JpegScan.SameChoice` | externals/stb/stb_image_write.h:1550-1591 | the tables and the prediction the writer picks for a component are those listed under its number, and only that prediction changes |
| `JpegScan.CalcBits` | externals/stb/stb_image_write.h:1318-1326 | size class and magnitude bits of every nonzero value of at most 16 bits; zero gets size 1 |
| `JpegCode.ValueBack` | externals/stb/stb_image_write.h:1318-1326 | receiving and extending the magnitude bits gives the value back |
| `JpegScan.WriteAc` | externals/stb/stb_image_write.h:1366-1395 | the loop over zero runs sends the items of the block, with an end symbol unless the last coefficient was sent |
| `JpegBits.Writer.WriteBits` | externals/stb/stb_image_write.h:1253-1268 | a code is appended most significant bit first, fewer than 8 bits stay pending, and the output is the stuffed form of the raw bytes |
| `JpegBits.Writer.Fill` | externals/stb/stb_image_write.h:1597 | after the final fill every bit written lies in a whole byte, followed by fewer than 8 more |
| `JpegBits.UnstuffBack` | externals/stb/stb_image_write.h:1258-1263 | dropping the zero after each 0xFF up to a marker gives back the raw bytes |
| `JpegTables.HuffTableUsable` | externals/stb/stb_image_write.h:1400-1424 | every table definition whose code counts fit gives codes that fit their length and of which none begins another |
| `JpegTables.YdcDescribed` | externals/stb/stb_image_write.h:1400 | the luminance DC counts of the header fit and describe 12 codes |
| `JpegTables.YacDescribed` | externals/stb/stb_image_write.h:1402 | the luminance AC counts of the header fit and describe 162 codes |
| `JpegTables.UvdcDescribed` | externals/stb/stb_image_write.h:1412 | the chrominance DC counts of the header fit and describe 12 codes |
| `JpegTables.UvacDescribed` | externals/stb/stb_image_write.h:1414 | the chrominance AC counts of the header fit and describe 162 codes |
| `JpegTables.HeaderTablesUsable` | externals/stb/stb_image_write.h:1400-1424 | the four tables built from the definitions in the header meet what decoding a scan needs |
| `GetoptScanner.ReadAll` | externals/getopt/getopt.c:129-188 | main result, over a whole run in PERMUTE order: the answers of all calls are the left-to-right reading of the original arguments, up to an answer of -1 if a long option has that value; if the run is not cut short so, at the end argv is argv[0], options with their arguments and any "--", then operands, each in original order, with optind at the first operand; argv is a permutation in any case |
| `GetoptScanner.ReadInPlaceAll` | externals/getopt/getopt.c:129-188 | over a whole run in the two other orders: argv stays as it was and the answers are the reading up to the first operand, respectively with each operand reported as 1, with optind where that reading ends |
| `GetoptSpelling.SpellBack` | externals/getopt/getopt.c:187-476 | main result: every line spelled from declared options and operands, in any order and any spelling (clusters, arguments attached or apart, long names with = or apart, abbreviations), is read as the options and arguments meant, with the same options and operands set apart, whatever follows |
| `GetoptSpelling.LineBack` | externals/getopt/getopt.c:129-476 | the same for a whole line that ends with "--" and operands |
| `GetoptSpelling.AttachedBack` | externals/getopt/getopt.c:438-457 | text after an option that takes an argument, required or optional, is that argument |
| `GetoptSpelling.ApartBack` | externals/getopt/getopt.c:451-473 | without text the next element is the required argument, even one that looks like an option |
| `GetoptSpelling.BareBack` | externals/getopt/getopt.c:440-450 | without text an optional argument is absent and the next element is left alone |
| `GetoptSpelling.MissingBack` | externals/getopt/getopt.c:458-469 | a required argument missing at the end gives ":" or "?" by the first character of the declaration |
| `GetoptSpelling.FlagsBack` | externals/getopt/getopt.c:317-330 | a cluster of options without arguments gives one answer for each |
| `GetoptSpelling.UnknownBack` | externals/getopt/getopt.c:319-330 | an option that is not declared gives "?" |
| `GetoptSpelling.LongEqualsBack` | externals/getopt/getopt.c:247-296 | --name=text gives the value of the entry, or 0 if it has a flag, with the text after the first = as argument |
| `GetoptSpelling.LongApartBack` | externals/getopt/getopt.c:273-296 | --name takes the next element as required argument |
| `GetoptSpelling.LongBareBack` | externals/getopt/getopt.c:288-296 | --name without a required argument has none and leaves the next element alone |
| `GetoptSpelling.LongMissingBack` | externals/getopt/getopt.c:273-286 | a required argument of a long option missing at the end gives ":" or "?" |
| `GetoptSpelling.LongUnknownBack` | externals/getopt/getopt.c:298-315 | a name no entry begins with gives "?" |
| `GetoptScanner.Scanner.NextOption` | externals/getopt/getopt.c:129-188 | one call in any order takes the next answer off the reading of the arguments, or ends with argv sorted (PERMUTE) or as it was |
| `GetoptScanner.Scanner.NextPermute` | externals/getopt/getopt.c:146-186 | in PERMUTE order a call takes one answer off those to come, or ends with argv sorted |
| `GetoptScanner.Scanner.NextInPlace` | externals/getopt/getopt.c:162-186 | in the orders that leave argv alone a call takes the next answer off the reading, or ends where the reading ends: at the end, after "--", or at the first operand |
| `GetoptScanner.Scanner.Seek` | externals/getopt/getopt.c:146-186 | the scan between elements either finishes or stops at an option element |
| `GetoptScanner.Scanner.SkipOperands` | externals/getopt/getopt.c:158-160 | skips operands and keeps what is still to be parsed |
| `GetoptScanner.Scanner.Gather` | externals/getopt/getopt.c:154-157 | brings the options read so far in front of the operands skipped so far |
| `GetoptScanner.Scanner.EndOptions` | externals/getopt/getopt.c:162-171 | "--" leaves argv in its final order |
| `GetoptScanner.Scanner.ReadOne` | externals/getopt/getopt.c:187-316 | reads one option of an element and moves past the element when it is used up |
| `GetoptScanner.Scanner.Initialize` | externals/getopt/getopt.c:108-128 | chooses the ordering from the first character and the POSIXLY_CORRECT setting |
| `GetoptScanner.Scanner.Exchange` | externals/getopt/getopt.c:72-107 | the exchange also moves first_nonopt and last_nonopt to the operands' new place |
| `Getopt.Rotate` | externals/getopt/getopt.c:72-104 | exact in-place rotation: A B becomes B A with the order inside each block kept and nothing outside touched |
| `Getopt.SwapBlocks` | externals/getopt/getopt.c:84-89 | swaps two equally long blocks and nothing else |
| `Getopt.TurnKeepsTarget` | externals/getopt/getopt.c:80-103 | each turn of the loop leaves the rotation still to do equal to the rotation asked for |
| `GetoptGrammar.FindLongMeans` | externals/getopt/getopt.c:201-246 | what the search for a long option finds: the first exact name, otherwise the first abbreviation, ambiguous if another one differs |
| `GetoptGrammar.SplitIsPermutation` | externals/getopt/getopt.c:146-186 | options and operands of an argument list together are a permutation of it |
| `GetoptRun.SortedExchange` | externals/getopt/getopt.c:154-157 | the layout of argv between scans survives the exchange |
| `GetoptRun.SortedRead` | externals/getopt/getopt.c:146-186 | the layout of argv survives reading an option element with its separate argument |
| `GetoptRun.SortedIsPermutation` | externals/getopt/getopt.c:129-188 | at every point between scans argv is a permutation of the original |
| `GetoptRun.FinalIsPermutation` | externals/getopt/getopt.c:129-188 | the final argv is a permutation of the original |
| `BcAlpha.CompressAlphaBlock` | externals/stb/stb_dxt.cpp:690-745 | main result: for every 16 values the decoder's value for each texel is at least as near to the source as any other palette entry, and exact when max - min is at most 7 |
| `BcAlpha.Nearest` | externals/stb/stb_dxt.cpp:712-731 | rounding with the bias chosen picks the nearest of the eight interpolated values |
| `BcAlpha.IndexNearest` | externals/stb/stb_dxt.cpp:719-735 | no palette entry of the decoder is nearer than the one the index names |
| `BcAlpha.IndexExact` | externals/stb/stb_dxt.cpp:719-735 | in a range of at most 7 the palette entry named is the value itself |
| `BcAlpha.PaletteMeans` | externals/bc_decoder/bc_decoder.cpp:115-132 | the decoder's eight entries: both endpoints, then sevenths of the way if they descend, otherwise fifths, 0 and 255 |
| `BcAlpha.IndexBack` | externals/bc_decoder/bc_decoder.cpp:142-145 | the decoder reads back every three-bit index written |
| `BcAlpha.PackBlock` | externals/stb/stb_dxt.cpp:704-744 | the eight bytes hold the endpoints and the sixteen indices in order |
| `BcEncode.CompressColorBlock` | externals/stb/stb_dxt.cpp:617-687 | main result: a constant block decodes in both decoder modes to one opaque colour, every channel within 1 of the block and equal to it exactly for the values Exact5 and Exact6 name; any other block holds the settled endpoints in descending order and every texel decodes to the very palette colour the final match chose for it, which none of the four is nearer than along the line between the endpoints; those endpoints are refined for the first match, showing the mean colour if its indices agree and fitting best if not, and refined once more in high quality unless that made them equal or kept the indices |
| `BcSingle.Single5` | externals/stb/stb_dxt.cpp:19-49 | all 256 five-bit table entries decode to within 1 of their value, and exactly to it for 136 of them, told by the residue modulo 11 |
| `BcSingle.Single6` | externals/stb/stb_dxt.cpp:50-80 | all 256 six-bit table entries decode to within 1 of their value, and exactly to it for 220 of them |
| `BcSingle.Best5` | externals/stb/stb_dxt.cpp:19-49 | no pair of five-bit endpoints decodes nearer to a value than the pair in the table |
| `BcSingle.Best6Iff` | externals/stb/stb_dxt.cpp:50-80 | the six-bit pair in the table is a nearest one exactly for the values that are not among the 25 of Missed6, for which endpoints further apart decode exactly |
| `BcEncode.OptimizeBlock` | externals/stb/stb_dxt.cpp:648-673 | through all refinement steps, however floating point rounds, the mask belongs to the endpoints in use, which are kept in ascending order |
| `BcEncode.FinalizeColors` | externals/stb/stb_dxt.cpp:236-244 | swapping the endpoints with mask ^ 0x55555555 flips every index |
| `BcEncode.MatchColorsBlock` | externals/stb/stb_dxt.cpp:152-194 | the mask holds the sixteen indices chosen |
| `BcEncode.SwappedNearest` | externals/stb/stb_dxt.cpp:236-244 | after the swap each texel still decodes to the nearest colour |
| `BcEncode.RefineBlock` | externals/stb/stb_dxt.cpp:527-612 | with all indices equal the decoder has, in every mode, a palette entry for the stored endpoints within 1 of the rounded mean colour of the block in each channel and equal to it where the tables are exact; otherwise the endpoints are the quantized quotients of the block's own sums, each floating-point result rounded by any given function, and without rounding fit the block best; stored in ascending order, and reported as changed exactly if they differ from those before |
| `BcEncode.RefineFits` | externals/stb/stb_dxt.cpp:565-606 | over the reals: for indices that differ the refined endpoints are, channel by channel, the 5-6-5 colours closest to the endpoints of least squared error, up to the six decimals of the midpoint table |
| `BcEncode.RefineMean` | externals/stb/stb_dxt.cpp:545-566 | whatever the indices, if all agree a refinement stores endpoints that show the mean colour |
| `BcEncode.SettleMeets` | externals/stb/stb_dxt.cpp:648-673 | the endpoints after one or two refinement steps in terms of what each refinement promises, with the exact condition for stopping |
| `BcSolve.SolutionBest` | externals/stb/stb_dxt.cpp:565-606 | over the reals: for the indices of a mask that is not uniform no pair of endpoints has a smaller squared error in a channel than the quotients computed from the sums |
| `BcSolve.LeastSquares` | externals/stb/stb_dxt.cpp:588-606 | endpoints whose rest is at right angles to both weight vectors have the least squared error |
| `BcSolve.QuotientSolves` | externals/stb/stb_dxt.cpp:592-606 | the quotients solve both normal equations |
| `BcSolve.Nearest5` | externals/stb/stb_dxt.cpp:492-513 | the quantized five-bit channel is nearest to the quotient, up to the six decimals of the midpoint table |
| `BcSolve.Nearest6` | externals/stb/stb_dxt.cpp:498-522 | the quantized six-bit channel is nearest to the quotient, up to the six decimals of the midpoint table |
| `BcColor.PaletteAgrees` | externals/bc_decoder/bc_decoder.cpp:19-63 | the decoder's four colours are the encoder's, entry by entry, and opaque |
| `BcColor.PaletteEqual` | externals/bc_decoder/bc_decoder.cpp:19-63 | with equal endpoints the first three entries are that colour in both modes |
| `BcColor.PaletteThree` | externals/bc_decoder/bc_decoder.cpp:20-31 | with endpoints that do not descend the third entry is half way between them and the last black, transparent if the block has alpha |
| `BcColor.PaletteFour` | externals/bc_decoder/bc_decoder.cpp:20-31 | otherwise the last two entries are a third of the way from either endpoint, and opaque |
| `BcColor.MatchNearest` | externals/stb/stb_dxt.cpp:152-194 | no palette colour projects nearer to the pixel than the one chosen |
| `BcColor.StopsOrdered` | externals/stb/stb_dxt.cpp:138-178 | the four stops lie on the line in the order 1, 3, 2, 0 |
| `BcColor.XorFlips` | externals/stb/stb_dxt.cpp:236-244 | exclusive or with ones exchanges indices 0 and 1, 2 and 3, at every place |
| `BcColor.DigitBack` | externals/bc_decoder/bc_decoder.cpp:99-102 | the decoder reads back every two-bit index of a mask |
| `BcRefine.NormalEquations` | externals/stb/stb_dxt.cpp:527-592 | main result: the solving branch is taken exactly when the indices differ, and the determinant it divides by is then positive; sums and weighted pixel sums are what the normal equations need |
| `BcRefine.Accumulate` | externals/stb/stb_dxt.cpp:565-590 | the packed accumulator holds the three sums of weight products, no field carrying into the next |
| `BcRefine.UniformTest` | externals/stb/stb_dxt.cpp:545 | (mask ^ (mask << 2)) < 4 holds exactly if all sixteen indices are equal |
| `BcRefine.Determinant` | externals/stb/stb_dxt.cpp:588-592 | the determinant is nine times the variance of the weights |
| `BcRefine.VariancePositive` | externals/stb/stb_dxt.cpp:545-592 | the variance is never negative and zero exactly for uniform indices |
| `BcRefine.AverageColor` | externals/stb/stb_dxt.cpp:549-558 | the rounded mean colour, each channel a valid table index |
| `Bc6h.Decode` | externals/bc_decoder/bc_decoder.cpp:800-918 | main result: each texel is what the block means, black for reserved modes; finite and never a negative zero unless the block is signed with 16-bit endpoints; what a texel means is told from the stored numbers by `Bc6hMeaning.TexelIff` |
| `Bc6hMeaning.TexelIff` | externals/bc_decoder/bc_decoder.cpp:328-524 | main result: a channel of a texel is the one number in this relation to the stored fields: base and wrapped difference stand for a number of the mode's size, that is rescaled to 16 bits half a step up with zero and the largest kept, the two endpoints are averaged with the 64th nearest to the index, and the mean becomes a half float by 31/64, or 31/32 of the magnitude with the sign apart |
| `Bc6hMeaning.EndpointMeans` | externals/bc_decoder/bc_decoder.cpp:328-424 | every endpoint after sign extension, delta and unquantization is the rescaled number its stored field stands for |
| `Bc6hMeaning.UnquantizeUnsignedMeans` | externals/bc_decoder/bc_decoder.cpp:379-392 | 0 and all ones map to 0 and 0xFFFF, any other r satisfies r * 2^size <= c * 0x10000 + 0x8000 < (r + 1) * 2^size; from 15 bits on nothing changes |
| `Bc6hMeaning.UnquantizeSignedMeans` | externals/bc_decoder/bc_decoder.cpp:394-424 | the same for the magnitude, with the sign kept and saturation at 0x7FFF |
| `Bc6hMeaning.ResolvedMeans` | externals/bc_decoder/bc_decoder.cpp:353-369 | a delta gives the number of the base's size congruent to base plus difference |
| `Bc6hMeaning.BlendMeans` | externals/bc_decoder/bc_decoder.cpp:481-524 | interpolation and the last step give the rounded weighted mean as a half float |
| `Bc6hMeaning.WeightMeans` | externals/bc_decoder/bc_decoder.cpp:482-487 | the weights are the 64ths nearest to k/7 and k/15 |
| `Bc6hMeaning.UnsignedBetween` | externals/bc_decoder/bc_decoder.cpp:481-524 | an unsigned texel lies between its endpoints scaled by 31/64, is the first for index 0 and the second for the last index |
| `Bc6hMeaning.AllOnes` | externals/bc_decoder/bc_decoder.cpp:379-392 | an unsigned channel of ones that is no delta gives the endpoint 0xFFFF |
| `Bc6hMeaning.LargestFloat` | externals/bc_decoder/bc_decoder.cpp:503-520 | whose float is 0x7BFF |
| `Bc6hLayout.LowBitsAt` | externals/bc_decoder/bc_decoder.cpp:630-794 | in all fourteen modes the low four bits of every endpoint channel but blue of the last, and of the partition number, are the same bits of the block |
| `Bc6h.BlockFinite` | externals/bc_decoder/bc_decoder.cpp:861-916 | no texel of an unsigned block, nor of a signed block below 16 bits, is infinite, a NaN or a negative zero |
| `Bc6hSigned.BlockFiniteIff` | externals/bc_decoder/bc_decoder.cpp:481-524 | exactly when a texel of any signed block is finite, told from the stored fields: always outside mode 15, and there by the stored 16-bit base, the stored 4-bit difference and the index of the texel |
| `Bc6h.EndsFiniteIff` | externals/bc_decoder/bc_decoder.cpp:481-524 | the same told from the endpoints: their weighted mean stays half a step above -32768 |
| `Bc6h.SixteenBitsNotFinite` | externals/bc_decoder/bc_decoder.cpp:481-524 | a signed 16-bit block whose first texel is minus infinity |
| `Bc6h.DecodeTexels` | externals/bc_decoder/bc_decoder.cpp:884-915 | reads the sixteen indices and uses up the 128 bits exactly |
| `Bc6h.DecodeLegal` | externals/bc_decoder/bc_decoder.cpp:822-916 | header, endpoints and texels of a legal mode, ending at bit 128 |
| `Bc6h.PrepareEnds` | externals/bc_decoder/bc_decoder.cpp:861-882 | the endpoint objects end up with the values used for interpolation |
| `Bc6hValues.UnsignedFinite` | externals/bc_decoder/bc_decoder.cpp:481-524 | unsigned interpolation and scaling stay at or below 0x7BFF |
| `Bc6hValues.SignedFinite` | externals/bc_decoder/bc_decoder.cpp:481-524 | signed interpolation and scaling give a finite value exactly if the weighted endpoints do not average to -32768 |
| `Bc6hValues.UnquantizeSignedFits` | externals/bc_decoder/bc_decoder.cpp:394-424 | below 16 bits unquantization stays within -32767..32767 |
| `Bc6hValues.SignExtendMeans` | externals/bc_decoder/bc_decoder.cpp:306-326 | flipping the top bit and subtracting it extends the sign |
| `Bc6hEndpoints.Rgbf.ExtendSign` | externals/bc_decoder/bc_decoder.cpp:347-351 | sign extends the three channels in place |
| `Bc6hEndpoints.Rgbf.Resolve` | externals/bc_decoder/bc_decoder.cpp:357-369 | turns the three deltas into values of the base's size in place |
| `Bc6hEndpoints.Rgbf.Unquantize` | externals/bc_decoder/bc_decoder.cpp:371-424 | unquantizes the three channels in place; a channel that is rescaled becomes 16 bits wide, the others keep their size |
| `Bc6hEndpoints.FinalFits` | externals/bc_decoder/bc_decoder.cpp:328-424 | through sign extension, deltas and unquantization a signed endpoint below 16 bits never becomes -32768 |
| `Bc6hRegister.Data.ConsumeBits` | externals/bc_decoder/bc_decoder.cpp:443-472 | the two words behave as one 128-bit register shifted right; the field read is the lowest bits, turned around when MSB < LSB |
| `Bc6hModes.HeldOnce` | externals/bc_decoder/bc_decoder.cpp:630-794 | in every legal mode the header holds each stored endpoint bit, and each partition bit, exactly once and nothing else |
| `Bc6hModes.BlockWidth` | externals/bc_decoder/bc_decoder.cpp:630-794 | in every legal mode the mode number, the header and the indices fill 128 bits |
| `Bc6hModes.ModeToIndex` | externals/bc_decoder/bc_decoder.cpp:594-608 | every legal mode number maps to its table row, the others are reserved |
| `Bc6hHeader.HeaderBit` | externals/bc_decoder/bc_decoder.cpp:824-859 | after reading a header each stored endpoint bit is one definite bit of the stream and the bits above are zero |
| `Bc6hHeader.HeaderBitsDiffer` | externals/bc_decoder/bc_decoder.cpp:824-859 | no stream bit serves two endpoint bits |
| `Bc6hHeader.ReadFields` | externals/bc_decoder/bc_decoder.cpp:824-859 | reading the fields leaves the channels as described and the register behind the header |
| `BcTables.Partition2` | externals/bc_decoder/bc_decoder.cpp:178-254 | in all 64 two-subset partitions texel 0 is in subset 0 and the anchor of subset 1 in subset 1 |
| `BcTables.Partition3` | externals/bc_decoder/bc_decoder.cpp:1080-1184 | in all 64 three-subset partitions each anchor is in its subset |
| `Bc7.FieldsApart` | externals/bc_decoder/bc_decoder.cpp:927-993 | no two header fields of a mode share a bit, and all lie between mode number and indices |
| `Bc7.ModesFilled` | externals/bc_decoder/bc_decoder.cpp:938-1008 | header and index streams of every mode fill the 128 bits |
| `Bc7.ModesLaidOut` | externals/bc_decoder/bc_decoder.cpp:938-1008 | the widths of every mode put partition, channels, p-bits and both index streams at the absolute positions of the format |
| `Bc7.AnchorIff` | externals/bc_decoder/bc_decoder.cpp:1397-1423 | each subset has exactly one anchor |
| `Bc7.StreamTiles` | externals/bc_decoder/bc_decoder.cpp:1425-1459 | the index fields follow each other without a gap and end exactly where the stream ends, bit 128 for the last one |
| `Bc7Block.EveryBitOnce` | externals/bc_decoder/bc_decoder.cpp:927-1008 | main result: in every block with a legal mode, with its own mode and partition, each of the 128 bits lies in exactly one of the mode prefix, the header fields and the index fields of the texels |
| `Bc7Block.ReadBlock` | externals/bc_decoder/bc_decoder.cpp:1347-1365 | with the mode and partition fields of the block itself, every colour and alpha index is read from its own field inside the 128 bits; the reserved mode gives none |
| `Bc7Block.OneOwner` | externals/bc_decoder/bc_decoder.cpp:927-1008 | no bit lies in two fields |
| `Bc7.ReadIndices` | externals/bc_decoder/bc_decoder.cpp:1347-1365 | the same for any mode and partition given |
| `Bc7.GetMeans` | externals/bc_decoder/bc_decoder.cpp:1218-1227 | reading a field gives its bits of the 128, also across the two words |
| `Bc7.BlockMode` | externals/bc_decoder/bc_decoder.cpp:1229-1255 | the mode is the number of zeros before the first one |
| `ProfilerFlip.Profiler.Interleave` | externals/microprofile/microprofile.h:1387-1756 | main result, over every interleaving of producer steps and steps of flips: if at most BUFFER_SIZE entries have been accepted since the first entry then still to be drained, the run drains exactly the accepted entries from there to where the drain has come, which are those between the two marks when no flip is under way before and after; if at most BUFFER_SIZE have been accepted since the enter entry of the outermost scope then open, the account remains what the drained entries come to; a write outside the stack arrays is reached exactly when their nesting reaches 32 |
| `ProfilerFlip.Profiler.DrainNext` | externals/microprofile/microprofile.h:1691-1741 | one slot of the drain, with entries arriving before and after: the account moves by the entry read, with a scope it closes timed from the entry now at the slot on the stack; it stays exact exactly if the oldest entry needed has at most BUFFER_SIZE entries from it on |
| `ProfilerFlip.Profiler.Write` | externals/microprofile/microprofile.h:1391-1399 | the producer may write at every point of a flip; account and drain are unaffected |
| `ProfilerFlip.ScopeTimedIff` | externals/microprofile/microprofile.h:1731-1732 | a scope is charged its own duration exactly if the entry now at the slot of its enter entry carries the same tick, always while that entry is held |
| `ProfilerCase.OpenTooLong` | externals/microprofile/microprofile.h:1731-1732 | a run of puts and flips after which a scope from tick 0 to tick 8 has been charged 7 ticks, because BUFFER_SIZE entries came while it was open; every entry was drained |
| `ProfilerRing.Recorder.Write` | externals/microprofile/microprofile.h:1391-1399 | an entry is accepted unless BUFFER_SIZE - 1 entries came since the last mark; ring, marks and drain stay consistent at every point of a flip |
| `ProfilerRing.Recorder.Publish` | externals/microprofile/microprofile.h:1400 | moving nPut on keeps them consistent |
| `ProfilerRing.Recorder.TakeMark` | externals/microprofile/microprofile.h:1560-1616 | the mark is the number of published entries, stored in the next frame slot, and releases the producer |
| `ProfilerRing.Recorder.BeginDrain` | externals/microprofile/microprofile.h:1563-1661 | the stored marks give ranges with exactly the slots of the entries between the marks four and three flips back |
| `ProfilerRing.Recorder.ReadNext` | externals/microprofile/microprofile.h:1687-1693 | each slot read gives the next entry if at most BUFFER_SIZE entries came from that one on, and otherwise the last one written to its slot |
| `ProfilerRing.RangeCovers` | externals/microprofile/microprofile.h:1481-1498 | the ranges between the slots of two marks less than a ring apart hold the slots of the entries between them, in order |
| `ProfilerRing.WriteConsistent` | externals/microprofile/microprofile.h:1387-1402 | the ring refuses an entry exactly when it is full and otherwise keeps ring, marks and drain consistent |
| `ProfilerTime.RunConserves` | externals/microprofile/microprofile.h:1683-1762 | conservation over any log: exclusive ticks added equal the change in the sum of the open child ticks |
| `ProfilerTime.StepConserves` | externals/microprofile/microprofile.h:1696-1741 | conservation for one entry |
| `ProfilerTime.RunScopes` | externals/microprofile/microprofile.h:1683-1762 | a nested log charges each timer its scopes' durations and, exclusively, those durations net of the scopes inside |
| `ProfilerTime.ExclusiveAddsUp` | externals/microprofile/microprofile.h:1683-1762 | with an empty stack at both ends exclusive times sum to the durations of the outermost scopes |
| `ProfilerTime.Accountant.EnterScope` | externals/microprofile/microprofile.h:1696-1711 | entering pushes the slot; the guard lets depth 31 through, where the write of the child ticks is outside the array, so a write out of range is reached exactly when the nesting would become 32 |
| `ProfilerTime.EntersTooDeep` | externals/microprofile/microprofile.h:1696-1711 | enter entries in a row reach a write outside the stack arrays exactly if there are 32 or more |
| `ProfilerTime.FitsNext` | externals/microprofile/microprofile.h:1696-1741 | one entry more keeps the nesting below 32 exactly if the entry itself does |
| `ProfilerTime.Accountant.LeaveScope` | externals/microprofile/microprofile.h:1724-1741 | leaving pops the stack and splits inclusive from exclusive time |
| `ProfilerLog.EntryFields` | externals/microprofile/microprofile.h:835-854 | type, timer and tick of an entry are those it was made from |
| `ProfilerLog.DifferenceWraps` | externals/microprofile/microprofile.h:856-862 | the difference of two entries depends on their 48-bit ticks only, with sign |
| `ProfilerLog.DifferenceExact` | externals/microprofile/microprofile.h:856-862 | for times less than 2^47 ticks apart it is the true difference |
| `Bump.RunKeeps` | externals/demangle/ItaniumDemangle.cpp:289-344 | main result: after any run of requests and resets the memory handed out is in multiples of 16 bytes, pairwise disjoint, inside one block each and clear of every block header, and the block list is acyclic |
| `Bump.AllocateKeeps` | externals/demangle/ItaniumDemangle.cpp:322-332 | a request adds one region of the rounded size and obtains at most one block; an oversized one leaves the bump block at the head |
| `Bump.ClearKeeps` | externals/demangle/ItaniumDemangle.cpp:334-341 | a reset releases every block obtained exactly once and never the initial buffer |
| `Bump.RoundCovers` | externals/demangle/ItaniumDemangle.cpp:323 | the rounded size covers the request exactly for requests up to 4 GiB - 16, the mask having 32 bits |
| `Bump.BumpPointerAllocator.Allocate` | externals/demangle/ItaniumDemangle.cpp:322-332 | returns the address of the region added |
| `Bump.BumpPointerAllocator.Reset` | externals/demangle/ItaniumDemangle.cpp:334-341 | walks the list and starts again with the initial buffer |
| `Bump.BumpPointerAllocator.FreeBlocks` | externals/demangle/ItaniumDemangle.cpp:335-340 | the walk releases the blocks of the list in order, the initial buffer excepted |

## Left out

- Inflate: dynamic Huffman blocks, which the writer never emits; the reader of the model rejects them.
- Zlib: allocation failures, and how the output buffer grows while the compressed form is written.
- Lz77.HashAt: states only that the bucket number is in range, because no result depends on which bucket it is.
- PNG file structure: signature, chunks, CRC-32 and the header fields.
- BMP, and the uncompressed TGA form: plain copies.
- Floating point: the JPEG transform and colour conversion, the HDR exponent format and the BC1 principal-axis search; their integer results are arbitrary inputs. In the BC1 refinement every floating-point result is rounded by an arbitrary function in `BcEncode`, and exact in `BcSolve`; the quantizers multiply exactly.
- JpegFile.WriteImage: the coded units are a parameter; which pixels make up a unit is left to the colour conversion.
- stbiw__jpg_DCT and the quantization tables are not part of this model.
- GetoptScanner.ReadAll: the `W;` extension, error messages, and option flags written through pointers.
- GetoptScanner.Scanner.NextOption: the two assignments that bring first_nonopt and last_nonopt back when a caller moves optind between calls.
- The wide-character copies of getopt: the same code over another character type.
- BcEncode.CompressColorBlock: the path with the alpha flag.
- BcAlpha.CompressAlphaBlock: where the decoder stores texels and how it clips blocks at the border.
- Bc6hLayout.LowBitsAt: the scattered high bits differ from mode to mode and have no common place; they are held once each (`Bc6hModes.HeldOnce`).
- Bc6h.Decode: where texels are stored, clipping, and the alpha channel, which is constant.
- Bc7Block.ReadBlock: endpoint expansion, p-bits, interpolation and rotation; they work on single values.
- ProfilerFlip.Profiler.Interleave: one thread's log, with every memory access seen in program order; the test against nGet and the write of the slot are one step. Pausing the profiler, which skips drains and empties the stack, and the second pass over logs of the graphics processor are not modelled.
- ProfilerFlip.Profiler.DrainNext: what happens after a write outside the stack arrays; the account then stands still.
- ProfilerTime.RunConserves: group times, meta counters, the clearing of the totals at each flip, and wrap-around of the 64-bit totals.
- Bump.RunKeeps: `malloc` returning null, which ends the program.
- The Itanium demangler, the profiler's server and display, and everything under `src/`.
