/**
 * The program's data types and their Borsh encodings: the `CreateInfo`
 * instruction it accepts and the versioned `TokenInfo` record it stores,
 * plus the two-byte header that precedes the stored record.
 *
 * Struct fields are written in declaration order, enum variants as a
 * one-byte tag, vectors as a `u32` count followed by the elements.
 */
module TokenInfoCodec {
  import opened Wrappers
  import opened Borsh

  const MAGIC_BYTE: byte := 0xAB
  const DATA_VERSION: byte := 1

  datatype Images = Images(icon: Str, header: Str)

  datatype Link = Link(text: Str, url: Str)

  datatype TokenInfoV1 = TokenInfoV1(
    mint: Str,
    description: Str,
    links: seq<Link>,
    images: Images,
    creationTimestamp: i64,
    updateTimestamp: i64)

  /** Versioned record; `V1` is variant tag 0. */
  datatype TokenInfo = V1(v1: TokenInfoV1)

  /** The one instruction; `CreateInfo` is variant tag 0. */
  datatype Instruction = CreateInfo(
    description: Str,
    links: seq<Link>,
    iconUri: Str,
    headerUri: Str)

  // ---- what Borsh can write -------------------------------------------

  predicate LinkFits(l: Link)
  {
    StrFits(l.text) && StrFits(l.url)
  }

  predicate EachLinkFits(links: seq<Link>)
  {
    links == [] || (LinkFits(links[0]) && EachLinkFits(links[1..]))
  }

  predicate LinksFit(links: seq<Link>)
  {
    |links| < U32_LIMIT && EachLinkFits(links)
  }

  predicate ImagesFit(im: Images)
  {
    StrFits(im.icon) && StrFits(im.header)
  }

  predicate TokenInfoFits(info: TokenInfo)
  {
    var v := info.v1;
    StrFits(v.mint) && StrFits(v.description) && LinksFit(v.links) && ImagesFit(v.images)
  }

  predicate InstructionFits(ix: Instruction)
  {
    StrFits(ix.description) && LinksFit(ix.links) && StrFits(ix.iconUri) && StrFits(ix.headerUri)
  }

  // ---- encoders -------------------------------------------------------

  function EncodeLink(l: Link): seq<byte>
    requires LinkFits(l)
  {
    EncodeString(l.text) + EncodeString(l.url)
  }

  /** The links one after another, without the count prefix. */
  function EncodeLinkItems(links: seq<Link>): seq<byte>
    requires EachLinkFits(links)
  {
    if links == [] then [] else EncodeLink(links[0]) + EncodeLinkItems(links[1..])
  }

  function EncodeLinks(links: seq<Link>): seq<byte>
    requires LinksFit(links)
  {
    EncodeU32(|links|) + EncodeLinkItems(links)
  }

  function EncodeImages(im: Images): seq<byte>
    requires ImagesFit(im)
  {
    EncodeString(im.icon) + EncodeString(im.header)
  }

  function EncodeTokenInfoV1(v: TokenInfoV1): seq<byte>
    requires TokenInfoFits(V1(v))
  {
    EncodeString(v.mint) + EncodeString(v.description) + EncodeLinks(v.links)
    + EncodeImages(v.images) + EncodeI64(v.creationTimestamp) + EncodeI64(v.updateTimestamp)
  }

  function EncodeTokenInfo(info: TokenInfo): seq<byte>
    requires TokenInfoFits(info)
  {
    [0] + EncodeTokenInfoV1(info.v1)
  }

  function EncodeInstruction(ix: Instruction): seq<byte>
    requires InstructionFits(ix)
  {
    [0] + EncodeString(ix.description) + EncodeLinks(ix.links)
    + EncodeString(ix.iconUri) + EncodeString(ix.headerUri)
  }

  /**
   * `TokenInfo::serialize`: the encoding, or the I/O error Borsh raises
   * when a string or vector is too long for its `u32` length prefix.
   */
  function SerializeTokenInfo(info: TokenInfo): (r: Result<seq<byte>, ()>)
    ensures r.Ok? <==> TokenInfoFits(info)
  {
    if TokenInfoFits(info) then Ok(EncodeTokenInfo(info)) else Err(())
  }

  /** The stored record: magic byte, version byte, then the encoded `TokenInfo`. */
  function RecordBytes(info: TokenInfo): seq<byte>
    requires TokenInfoFits(info)
  {
    [MAGIC_BYTE, DATA_VERSION] + EncodeTokenInfo(info)
  }

  // ---- decoders -------------------------------------------------------

  /** Re-associates one more field onto an already-decoded prefix. */
  lemma Glue(s: seq<byte>, a: seq<byte>, r: seq<byte>, b: seq<byte>, r2: seq<byte>)
    requires s == a + r && r == b + r2
    ensures s == a + b + r2
  {
  }

  function ReadLink(s: seq<byte>): (r: Option<Parsed<Link>>)
    ensures r.Some? ==> |r.value.rest| <= |s| - 8
  {
    match ReadString(s)
    case None => None
    case Some(text) =>
      match ReadString(text.rest)
      case None => None
      case Some(url) => Some(Parsed(Link(text.value, url.value), url.rest))
  }

  /** What `ReadLink` accepts is an encoded link followed by the rest. */
  lemma ReadLinkSound(s: seq<byte>)
    requires ReadLink(s).Some?
    ensures var p := ReadLink(s).value; LinkFits(p.value) && s == EncodeLink(p.value) + p.rest
  {
    hide ReadString, EncodeString;
    var text := ReadString(s).value;
    var url := ReadString(text.rest).value;
    ReadStringSound(s);
    ReadStringSound(text.rest);
    Glue(s, EncodeString(text.value), text.rest, EncodeString(url.value), url.rest);
  }

  /** Reads exactly `n` links, failing as soon as one of them is cut short. */
  function ReadLinkItems(n: nat, s: seq<byte>): (r: Option<Parsed<seq<Link>>>)
    decreases n
  {
    if n == 0 then Some(Parsed([], s))
    else
      match ReadLink(s)
      case None => None
      case Some(first) =>
        match ReadLinkItems(n - 1, first.rest)
        case None => None
        case Some(others) => Some(Parsed([first.value] + others.value, others.rest))
  }

  /** What `ReadLinkItems` accepts is `n` encoded links followed by the rest. */
  lemma {:induction false} ReadLinkItemsSound(n: nat, s: seq<byte>)
    requires ReadLinkItems(n, s).Some?
    ensures var p := ReadLinkItems(n, s).value;
      |p.value| == n && EachLinkFits(p.value) && s == EncodeLinkItems(p.value) + p.rest
    decreases n
  {
    hide ReadLink, EncodeLink;
    if n > 0 {
      var first := ReadLink(s).value;
      var others := ReadLinkItems(n - 1, first.rest).value;
      var links := [first.value] + others.value;
      ReadLinkSound(s);
      ReadLinkItemsSound(n - 1, first.rest);
      assert links[0] == first.value && links[1..] == others.value;
      Glue(s, EncodeLink(first.value), first.rest, EncodeLinkItems(others.value), others.rest);
    }
  }

  function ReadLinks(s: seq<byte>): (r: Option<Parsed<seq<Link>>>)
  {
    match ReadU32(s)
    case None => None
    case Some(count) =>
      match ReadLinkItems(count.value, count.rest)
      case None => None
      case Some(links) => Some(links)
  }

  /** What `ReadLinks` accepts is an encoded link vector followed by the rest. */
  lemma ReadLinksSound(s: seq<byte>)
    requires ReadLinks(s).Some?
    ensures var p := ReadLinks(s).value; LinksFit(p.value) && s == EncodeLinks(p.value) + p.rest
  {
    hide ReadU32, EncodeU32, ReadLinkItems, EncodeLinkItems;
    var count := ReadU32(s).value;
    var links := ReadLinkItems(count.value, count.rest).value;
    ReadU32Sound(s);
    ReadLinkItemsSound(count.value, count.rest);
    Glue(s, EncodeU32(count.value), count.rest, EncodeLinkItems(links.value), links.rest);
  }

  function ReadImages(s: seq<byte>): (r: Option<Parsed<Images>>)
  {
    match ReadString(s)
    case None => None
    case Some(icon) =>
      match ReadString(icon.rest)
      case None => None
      case Some(header) => Some(Parsed(Images(icon.value, header.value), header.rest))
  }

  /** What `ReadImages` accepts is encoded images followed by the rest. */
  lemma ReadImagesSound(s: seq<byte>)
    requires ReadImages(s).Some?
    ensures var p := ReadImages(s).value; ImagesFit(p.value) && s == EncodeImages(p.value) + p.rest
  {
    hide ReadString, EncodeString;
    var icon := ReadString(s).value;
    var header := ReadString(icon.rest).value;
    ReadStringSound(s);
    ReadStringSound(icon.rest);
    Glue(s, EncodeString(icon.value), icon.rest, EncodeString(header.value), header.rest);
  }

  function ReadTokenInfoV1(s: seq<byte>): (r: Option<Parsed<TokenInfoV1>>)
  {
    match ReadString(s)
    case None => None
    case Some(mint) =>
      match ReadString(mint.rest)
      case None => None
      case Some(description) =>
        match ReadLinks(description.rest)
        case None => None
        case Some(links) =>
          match ReadImages(links.rest)
          case None => None
          case Some(images) =>
            match ReadI64(images.rest)
            case None => None
            case Some(created) =>
              match ReadI64(created.rest)
              case None => None
              case Some(updated) =>
                Some(Parsed(TokenInfoV1(mint.value, description.value, links.value,
                                        images.value, created.value, updated.value), updated.rest))
  }

  /** What `ReadTokenInfoV1` accepts is an encoded `TokenInfoV1` followed by the rest. */
  lemma ReadTokenInfoV1Sound(s: seq<byte>)
    requires ReadTokenInfoV1(s).Some?
    ensures var p := ReadTokenInfoV1(s).value;
      TokenInfoFits(V1(p.value)) && s == EncodeTokenInfoV1(p.value) + p.rest
  {
    hide ReadString, ReadLinks, ReadImages, ReadI64, EncodeString, EncodeLinks, EncodeImages, EncodeI64;
    var mint := ReadString(s).value;
    var description := ReadString(mint.rest).value;
    var links := ReadLinks(description.rest).value;
    var images := ReadImages(links.rest).value;
    var created := ReadI64(images.rest).value;
    var updated := ReadI64(created.rest).value;
    ReadStringSound(s);
    ReadStringSound(mint.rest);
    ReadLinksSound(description.rest);
    ReadImagesSound(links.rest);
    ReadI64Sound(images.rest);
    ReadI64Sound(created.rest);
    var m := EncodeString(mint.value);
    var d := EncodeString(description.value);
    var l := EncodeLinks(links.value);
    var i := EncodeImages(images.value);
    var c := EncodeI64(created.value);
    Glue(s, m, mint.rest, d, description.rest);
    Glue(s, m + d, description.rest, l, links.rest);
    Glue(s, m + d + l, links.rest, i, images.rest);
    Glue(s, m + d + l + i, images.rest, c, created.rest);
    Glue(s, m + d + l + i + c, created.rest, EncodeI64(updated.value), updated.rest);
  }

  /** Reads the variant tag (only 0, `V1`, exists) and then its payload. */
  function ReadTokenInfo(s: seq<byte>): (r: Option<Parsed<TokenInfo>>)
    ensures (|s| == 0 || s[0] != 0) ==> r.None?
  {
    if |s| == 0 || s[0] != 0 then None
    else
      match ReadTokenInfoV1(s[1..])
      case None => None
      case Some(v) => Some(Parsed(V1(v.value), v.rest))
  }

  /** What `ReadTokenInfo` accepts is an encoded `TokenInfo` followed by the rest. */
  lemma ReadTokenInfoSound(s: seq<byte>)
    requires ReadTokenInfo(s).Some?
    ensures var p := ReadTokenInfo(s).value;
      TokenInfoFits(p.value) && s == EncodeTokenInfo(p.value) + p.rest
  {
    hide ReadTokenInfoV1, EncodeTokenInfoV1;
    var v := ReadTokenInfoV1(s[1..]).value;
    ReadTokenInfoV1Sound(s[1..]);
    assert s == [0] + s[1..];
    Glue(s, [0], s[1..], EncodeTokenInfoV1(v.value), v.rest);
  }

  /** Reads the variant tag (only 0, `CreateInfo`, exists) and then its fields. */
  function ReadInstruction(s: seq<byte>): (r: Option<Parsed<Instruction>>)
    ensures (|s| == 0 || s[0] != 0) ==> r.None?
  {
    if |s| == 0 || s[0] != 0 then None
    else
      match ReadString(s[1..])
      case None => None
      case Some(description) =>
        match ReadLinks(description.rest)
        case None => None
        case Some(links) =>
          match ReadString(links.rest)
          case None => None
          case Some(icon) =>
            match ReadString(icon.rest)
            case None => None
            case Some(header) =>
              Some(Parsed(CreateInfo(description.value, links.value, icon.value, header.value),
                          header.rest))
  }

  /** What `ReadInstruction` accepts is an encoded instruction followed by the rest. */
  lemma ReadInstructionSound(s: seq<byte>)
    requires ReadInstruction(s).Some?
    ensures var p := ReadInstruction(s).value;
      InstructionFits(p.value) && s == EncodeInstruction(p.value) + p.rest
  {
    hide ReadString, ReadLinks, EncodeString, EncodeLinks;
    var description := ReadString(s[1..]).value;
    var links := ReadLinks(description.rest).value;
    var icon := ReadString(links.rest).value;
    var header := ReadString(icon.rest).value;
    ReadStringSound(s[1..]);
    ReadLinksSound(description.rest);
    ReadStringSound(links.rest);
    ReadStringSound(icon.rest);
    var d := EncodeString(description.value);
    var l := EncodeLinks(links.value);
    var c := EncodeString(icon.value);
    assert s == [0] + s[1..];
    Glue(s, [0], s[1..], d, description.rest);
    Glue(s, [0] + d, description.rest, l, links.rest);
    Glue(s, [0] + d + l, links.rest, c, icon.rest);
    Glue(s, [0] + d + l + c, icon.rest, EncodeString(header.value), header.rest);
  }

  /** `Instruction::try_from_slice`: decode, then refuse any byte left over. */
  function InstructionFromSlice(s: seq<byte>): Option<Instruction>
  {
    match ReadInstruction(s)
    case None => None
    case Some(p) => if p.rest == [] then Some(p.value) else None
  }

  /** `TokenInfo::try_from_slice`. */
  function TokenInfoFromSlice(s: seq<byte>): Option<TokenInfo>
  {
    match ReadTokenInfo(s)
    case None => None
    case Some(p) => if p.rest == [] then Some(p.value) else None
  }

  /** A reader of the stored record: check the header, then decode the rest. */
  function ParseRecord(s: seq<byte>): Option<TokenInfo>
  {
    if |s| < 2 || s[0] != MAGIC_BYTE || s[1] != DATA_VERSION then None
    else TokenInfoFromSlice(s[2..])
  }

  // ---- round trips ----------------------------------------------------

  lemma LinkRoundTrip(l: Link, t: seq<byte>)
    requires LinkFits(l)
    ensures ReadLink(EncodeLink(l) + t) == Some(Parsed(l, t))
  {
    hide ReadString, EncodeString;
    assert EncodeLink(l) + t == EncodeString(l.text) + (EncodeString(l.url) + t);
    StringRoundTrip(l.text, EncodeString(l.url) + t);
    StringRoundTrip(l.url, t);
  }

  /** Unfolds `ReadLinkItems` once. */
  lemma ReadLinkItemsStep(n: nat, s: seq<byte>, first: Parsed<Link>, others: Parsed<seq<Link>>)
    requires n > 0
    requires ReadLink(s) == Some(first)
    requires ReadLinkItems(n - 1, first.rest) == Some(others)
    ensures ReadLinkItems(n, s) == Some(Parsed([first.value] + others.value, others.rest))
  {
  }

  lemma EncodeLinkItemsCons(links: seq<Link>, t: seq<byte>)
    requires links != [] && EachLinkFits(links)
    ensures EncodeLinkItems(links) + t == EncodeLink(links[0]) + (EncodeLinkItems(links[1..]) + t)
  {
  }

  /** One link followed by a round-tripping rest round-trips. */
  lemma LinkItemsRoundTripCons(links: seq<Link>, t: seq<byte>)
    requires links != [] && EachLinkFits(links)
    requires ReadLinkItems(|links| - 1, EncodeLinkItems(links[1..]) + t) == Some(Parsed(links[1..], t))
    ensures ReadLinkItems(|links|, EncodeLinkItems(links) + t) == Some(Parsed(links, t))
  {
    hide ReadLink, EncodeLink;
    var s, tail := EncodeLinkItems(links) + t, EncodeLinkItems(links[1..]) + t;
    assert ReadLink(s) == Some(Parsed(links[0], tail)) by {
      EncodeLinkItemsCons(links, t);
      LinkRoundTrip(links[0], tail);
    }
    ReadLinkItemsStep(|links|, s, Parsed(links[0], tail), Parsed(links[1..], t));
    assert [links[0]] + links[1..] == links;
  }

  lemma {:induction false} LinkItemsRoundTrip(links: seq<Link>, t: seq<byte>)
    requires EachLinkFits(links)
    ensures ReadLinkItems(|links|, EncodeLinkItems(links) + t) == Some(Parsed(links, t))
  {
    hide ReadLink, EncodeLink;
    if links == [] {
      assert EncodeLinkItems(links) + t == t;
    } else {
      LinkItemsRoundTrip(links[1..], t);
      LinkItemsRoundTripCons(links, t);
    }
  }

  lemma LinksRoundTrip(links: seq<Link>, t: seq<byte>)
    requires LinksFit(links)
    ensures ReadLinks(EncodeLinks(links) + t) == Some(Parsed(links, t))
  {
    hide ReadU32, EncodeU32, ReadLinkItems, EncodeLinkItems;
    assert EncodeLinks(links) + t == EncodeU32(|links|) + (EncodeLinkItems(links) + t);
    U32RoundTrip(|links|, EncodeLinkItems(links) + t);
    LinkItemsRoundTrip(links, t);
  }

  lemma ImagesRoundTrip(im: Images, t: seq<byte>)
    requires ImagesFit(im)
    ensures ReadImages(EncodeImages(im) + t) == Some(Parsed(im, t))
  {
    hide ReadString, EncodeString;
    assert EncodeImages(im) + t == EncodeString(im.icon) + (EncodeString(im.header) + t);
    StringRoundTrip(im.icon, EncodeString(im.header) + t);
    StringRoundTrip(im.header, t);
  }

  lemma TokenInfoV1RoundTrip(v: TokenInfoV1, t: seq<byte>)
    requires TokenInfoFits(V1(v))
    ensures ReadTokenInfoV1(EncodeTokenInfoV1(v) + t) == Some(Parsed(v, t))
  {
    hide ReadString, ReadLinks, ReadImages, ReadI64, EncodeString, EncodeLinks, EncodeImages, EncodeI64;
    var t5 := EncodeI64(v.updateTimestamp) + t;
    var t4 := EncodeI64(v.creationTimestamp) + t5;
    var t3 := EncodeImages(v.images) + t4;
    var t2 := EncodeLinks(v.links) + t3;
    var t1 := EncodeString(v.description) + t2;
    assert EncodeTokenInfoV1(v) + t == EncodeString(v.mint) + t1;
    StringRoundTrip(v.mint, t1);
    StringRoundTrip(v.description, t2);
    LinksRoundTrip(v.links, t3);
    ImagesRoundTrip(v.images, t4);
    I64RoundTrip(v.creationTimestamp, t5);
    I64RoundTrip(v.updateTimestamp, t);
  }

  lemma TokenInfoPrefixRoundTrip(info: TokenInfo, t: seq<byte>)
    requires TokenInfoFits(info)
    ensures ReadTokenInfo(EncodeTokenInfo(info) + t) == Some(Parsed(info, t))
  {
    hide ReadTokenInfoV1, EncodeTokenInfoV1;
    var s := EncodeTokenInfo(info) + t;
    assert s[1..] == EncodeTokenInfoV1(info.v1) + t;
    TokenInfoV1RoundTrip(info.v1, t);
  }

  lemma InstructionPrefixRoundTrip(ix: Instruction, t: seq<byte>)
    requires InstructionFits(ix)
    ensures ReadInstruction(EncodeInstruction(ix) + t) == Some(Parsed(ix, t))
  {
    hide ReadString, ReadLinks, EncodeString, EncodeLinks;
    var s := EncodeInstruction(ix) + t;
    var t3 := EncodeString(ix.headerUri) + t;
    var t2 := EncodeString(ix.iconUri) + t3;
    var t1 := EncodeLinks(ix.links) + t2;
    assert s[1..] == EncodeString(ix.description) + t1;
    StringRoundTrip(ix.description, t1);
    LinksRoundTrip(ix.links, t2);
    StringRoundTrip(ix.iconUri, t3);
    StringRoundTrip(ix.headerUri, t);
  }

  /** Decoding the encoding of any instruction gives that instruction back. */
  lemma InstructionRoundTrip(ix: Instruction)
    requires InstructionFits(ix)
    ensures InstructionFromSlice(EncodeInstruction(ix)) == Some(ix)
  {
    hide ReadInstruction, EncodeInstruction;
    assert EncodeInstruction(ix) + [] == EncodeInstruction(ix);
    InstructionPrefixRoundTrip(ix, []);
  }

  /** Decoding the encoding of any record payload gives that payload back. */
  lemma TokenInfoRoundTrip(info: TokenInfo)
    requires TokenInfoFits(info)
    ensures TokenInfoFromSlice(EncodeTokenInfo(info)) == Some(info)
  {
    hide ReadTokenInfo, EncodeTokenInfo;
    assert EncodeTokenInfo(info) + [] == EncodeTokenInfo(info);
    TokenInfoPrefixRoundTrip(info, []);
  }

  /** A reader that checks the header recovers every stored record. */
  lemma RecordRoundTrip(info: TokenInfo)
    requires TokenInfoFits(info)
    ensures ParseRecord(RecordBytes(info)) == Some(info)
  {
    hide TokenInfoFromSlice, EncodeTokenInfo;
    assert RecordBytes(info)[2..] == EncodeTokenInfo(info);
    TokenInfoRoundTrip(info);
  }

  // ---- what the instruction decoder rejects ---------------------------

  /** The decoder accepts exactly the encodings of instructions. */
  lemma InstructionDecodeExact(s: seq<byte>, ix: Instruction)
    ensures InstructionFromSlice(s) == Some(ix) <==> InstructionFits(ix) && s == EncodeInstruction(ix)
  {
    hide ReadInstruction, EncodeInstruction;
    if InstructionFromSlice(s) == Some(ix) {
      ReadInstructionSound(s);
      assert s == EncodeInstruction(ix) + [];
    }
    if InstructionFits(ix) && s == EncodeInstruction(ix) {
      InstructionRoundTrip(ix);
    }
  }

  /** The record payload decoder accepts exactly the encodings of payloads. */
  lemma TokenInfoDecodeExact(s: seq<byte>, info: TokenInfo)
    ensures TokenInfoFromSlice(s) == Some(info) <==> TokenInfoFits(info) && s == EncodeTokenInfo(info)
  {
    hide ReadTokenInfo, EncodeTokenInfo;
    if TokenInfoFromSlice(s) == Some(info) {
      ReadTokenInfoSound(s);
      assert s == EncodeTokenInfo(info) + [];
    }
    if TokenInfoFits(info) && s == EncodeTokenInfo(info) {
      TokenInfoRoundTrip(info);
    }
  }

  /** The record reader accepts exactly the stored records. */
  lemma RecordDecodeExact(s: seq<byte>, info: TokenInfo)
    ensures ParseRecord(s) == Some(info) <==> TokenInfoFits(info) && s == RecordBytes(info)
  {
    hide TokenInfoFromSlice, EncodeTokenInfo;
    if ParseRecord(s) == Some(info) {
      TokenInfoDecodeExact(s[2..], info);
      assert s == [s[0], s[1]] + s[2..];
    }
    if TokenInfoFits(info) && s == RecordBytes(info) {
      RecordRoundTrip(info);
    }
  }

  /** An empty buffer, or a first byte other than the `CreateInfo` tag 0, is refused. */
  lemma UnknownTagRejected(s: seq<byte>)
    requires |s| == 0 || s[0] != 0
    ensures InstructionFromSlice(s) == None
  {
  }

  /** Bytes after the last field are refused. */
  lemma TrailingBytesRejected(ix: Instruction, t: seq<byte>)
    requires InstructionFits(ix)
    requires t != []
    ensures InstructionFromSlice(EncodeInstruction(ix) + t) == None
  {
    hide ReadInstruction, EncodeInstruction;
    InstructionPrefixRoundTrip(ix, t);
  }

  /**
   * Any strict prefix of an encoding is refused: some length or count
   * prefix in it then runs past the end of the buffer.
   */
  lemma TruncationRejected(ix: Instruction, k: nat)
    requires InstructionFits(ix)
    requires k < |EncodeInstruction(ix)|
    ensures InstructionFromSlice(EncodeInstruction(ix)[..k]) == None
  {
    hide ReadInstruction, EncodeInstruction;
    var full := EncodeInstruction(ix);
    var cut, t := full[..k], full[k..];
    assert full == cut + t && t != [];
    match InstructionFromSlice(cut)
    case None =>
    case Some(other) =>
      InstructionDecodeExact(cut, other);
      InstructionPrefixRoundTrip(other, t);
      assert full + [] == full;
      InstructionPrefixRoundTrip(ix, []);
      assert false;
  }

  // ---- lengths --------------------------------------------------------

  /** Σ (4 + |text| + 4 + |url|) over the links. */
  function LinkItemsSize(links: seq<Link>): nat
  {
    if links == [] then 0 else 8 + |links[0].text| + |links[0].url| + LinkItemsSize(links[1..])
  }

  lemma {:induction false} LinkItemsLength(links: seq<Link>)
    requires EachLinkFits(links)
    ensures |EncodeLinkItems(links)| == LinkItemsSize(links)
  {
    if links != [] {
      LinkItemsLength(links[1..]);
    }
  }

  /** The stored record's length, field by field. */
  lemma RecordLength(info: TokenInfo)
    requires TokenInfoFits(info)
    ensures var v := info.v1;
      |RecordBytes(info)| ==
        2 + 1 + (4 + |v.mint|) + (4 + |v.description|) + 4 + LinkItemsSize(v.links)
        + (4 + |v.images.icon|) + (4 + |v.images.header|) + 8 + 8
  {
    LinkItemsLength(info.v1.links);
  }

  /** The instruction's length, field by field. */
  lemma InstructionLength(ix: Instruction)
    requires InstructionFits(ix)
    ensures |EncodeInstruction(ix)| ==
      1 + (4 + |ix.description|) + 4 + LinkItemsSize(ix.links)
      + (4 + |ix.iconUri|) + (4 + |ix.headerUri|)
  {
    LinkItemsLength(ix.links);
  }
}
