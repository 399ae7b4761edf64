/**
 * The block list: the blocks fetched from the backend, the file-type display
 * table, the rule that offers "Minar" only on the first unmined block, and
 * the local update after a block has been mined.
 */
module Blocks {
  import opened Net

  datatype Document = Document(
    id: int,
    owner: string,
    fileType: string,
    createdAt: string,
    size: int,
    base64Content: Option<string>,
    blockId: Option<int>)

  datatype Block = Block(id: int, createdAt: string, documents: seq<Document>, isMined: bool)

  /** The only part of the system configuration this view reads. */
  datatype MiningConfig = MiningConfig(quantityOfZeros: int)

  /** The decoded payload of the access token; decoding itself is not modelled. */
  datatype TokenClaims = TokenClaims(uniqueName: string)

  /** The POST to `/api/blocks/mine/{blockId}/{quantityOfZeros}`. */
  datatype MineRequest = MineRequest(blockId: int, quantityOfZeros: int)

  const Unknown: string := "Desconocido"

  /** Composite file-type tags (MIME type, a dot, an extension) and their short names. */
  const MimeTable: map<string, string> := map[
    "text/plain.txt" := "txt",
    "application/msword.doc" := "doc",
    "application/vnd.openxmlformats-officedocument.wordprocessingml.document.docx" := "docx",
    "application/vnd.ms-excel.excel" := "xls",
    "application/vnd.openxmlformats-officedocument.spreadsheetml.sheet.xlsx" := "xlsx",
    "application/vnd.ms-powerpoint.ppt" := "ppt",
    "application/vnd.openxmlformats-officedocument.presentationml.presentation.pptx" := "pptx",
    "application/pdf.pdf" := "pdf",
    "image/jpeg.jpg" := "jpg",
    "image/png.png" := "png"
  ]

  const ShortNames: set<string> := {"txt", "doc", "docx", "xls", "xlsx", "ppt", "pptx", "pdf", "jpg", "png"}

  /** The short name shown in a document row: the table's entry, or
      "Desconocido" for any tag the table does not hold. */
  function MimeToName(tag: string): (name: string)
    ensures name in ShortNames <==> tag in MimeTable
    ensures name == Unknown <==> tag !in MimeTable
    ensures tag in MimeTable ==> name == MimeTable[tag]
  {
    if tag in MimeTable then MimeTable[tag] else Unknown
  }

  lemma MimeToNameExamples()
    ensures |MimeTable| == 10
    ensures MimeToName("application/pdf.pdf") == "pdf"
    ensures MimeToName("application/vnd.ms-excel.excel") == "xls"
    ensures MimeToName("image/png.png") == "png"
    ensures MimeToName("application/zip.zip") == Unknown
  {
  }

  /** The table is keyed by composite tags: a bare MIME type, as a browser
      reports it for a selected file, is not a key and shows as "Desconocido". */
  lemma BareMimeTypesAreUnknown()
    ensures MimeToName("text/plain") == Unknown
    ensures MimeToName("application/pdf") == Unknown
    ensures MimeToName("image/jpeg") == Unknown
    ensures MimeToName("image/png") == Unknown
    ensures MimeToName("application/vnd.ms-excel") == Unknown
  {
  }

  /** `blocks.findIndex(b => !b.isMined)`: the index of the first unmined
      block, or -1 when every block is mined. */
  function FirstUnmined(blocks: seq<Block>): (k: int)
    ensures -1 <= k < |blocks|
    ensures k == -1 <==> forall i :: 0 <= i < |blocks| ==> blocks[i].isMined
    ensures k >= 0 ==> !blocks[k].isMined && forall j :: 0 <= j < k ==> blocks[j].isMined
  {
    if |blocks| == 0 then -1
    else if !blocks[0].isMined then 0
    else
      var k := FirstUnmined(blocks[1..]);
      if k == -1 then -1 else k + 1
  }

  /** Whether the block at `index` renders the "Minar" button. */
  predicate OffersMine(blocks: seq<Block>, index: nat)
    requires index < |blocks|
  {
    !blocks[index].isMined && FirstUnmined(blocks) == index
  }

  /** The button is offered exactly on an unmined block preceded only by mined ones. */
  lemma OffersMineIff(blocks: seq<Block>, index: nat)
    requires index < |blocks|
    ensures OffersMine(blocks, index) <==>
      !blocks[index].isMined && forall j :: 0 <= j < index ==> blocks[j].isMined
  {
  }

  /** At most one block offers the button. */
  lemma AtMostOneOffer(blocks: seq<Block>, i: nat, j: nat)
    requires i < |blocks| && j < |blocks|
    requires OffersMine(blocks, i) && OffersMine(blocks, j)
    ensures i == j
  {
  }

  /** No block offers the button when all are mined, and one does otherwise. */
  lemma OfferExistsIffSomeUnmined(blocks: seq<Block>)
    ensures (exists i :: 0 <= i < |blocks| && OffersMine(blocks, i)) <==>
      exists i :: 0 <= i < |blocks| && !blocks[i].isMined
  {
    var k := FirstUnmined(blocks);
    if k >= 0 {
      assert OffersMine(blocks, k);
    }
  }

  /** `blocks.map(b => b.id === blockId ? { ...b, isMined: true } : b)`. */
  function MarkMined(blocks: seq<Block>, blockId: int): (r: seq<Block>)
    ensures |r| == |blocks|
    ensures forall i :: 0 <= i < |blocks| ==>
      r[i].id == blocks[i].id &&
      r[i].createdAt == blocks[i].createdAt &&
      r[i].documents == blocks[i].documents &&
      r[i].isMined == (blocks[i].isMined || blocks[i].id == blockId)
    ensures forall i :: 0 <= i < |blocks| && blocks[i].id != blockId ==> r[i] == blocks[i]
  {
    seq(|blocks|, i requires 0 <= i < |blocks| =>
      if blocks[i].id == blockId then blocks[i].(isMined := true) else blocks[i])
  }

  /** After marking `blockId` mined, the gate sits on the first block that was
      unmined and has another id. */
  lemma FirstUnminedAfterMark(blocks: seq<Block>, blockId: int)
    ensures var k := FirstUnmined(MarkMined(blocks, blockId));
      (k == -1 <==> forall i :: 0 <= i < |blocks| ==> blocks[i].isMined || blocks[i].id == blockId) &&
      (k >= 0 ==> !blocks[k].isMined && blocks[k].id != blockId &&
                  forall j :: 0 <= j < k ==> blocks[j].isMined || blocks[j].id == blockId)
  {
    var r := MarkMined(blocks, blockId);
    var k := FirstUnmined(r);
    if k >= 0 {
      assert !r[k].isMined;
      forall j | 0 <= j < k
        ensures blocks[j].isMined || blocks[j].id == blockId
      {
        assert r[j].isMined;
      }
    } else {
      forall i | 0 <= i < |blocks|
        ensures blocks[i].isMined || blocks[i].id == blockId
      {
        assert r[i].isMined;
      }
    }
  }

  ghost predicate UniqueIds(blocks: seq<Block>)
  {
    forall i, j :: 0 <= i < j < |blocks| ==> blocks[i].id != blocks[j].id
  }

  /** Mining the block that held the gate moves the gate to the next unmined
      block in list order, or removes it when there is none. */
  lemma GateMovesAfterMine(blocks: seq<Block>)
    requires UniqueIds(blocks)
    requires FirstUnmined(blocks) >= 0
    ensures var g := FirstUnmined(blocks);
      var k := FirstUnmined(MarkMined(blocks, blocks[g].id));
      (k == -1 <==> forall i :: g < i < |blocks| ==> blocks[i].isMined) &&
      (k >= 0 ==> g < k && !blocks[k].isMined && forall j :: g < j < k ==> blocks[j].isMined)
  {
    var g := FirstUnmined(blocks);
    var id := blocks[g].id;
    FirstUnminedAfterMark(blocks, id);
  }

  const BlocksFetchFailed: string := "Error al obtener los bloques."
  const ConfigFetchFailed: string := "Error al obtener la configuración del sistema."
  const UnknownFailure: string := "Ocurrió un error desconocido."
  const ConfigNotLoaded: string := "No se ha cargado la configuración del sistema."
  const MineFailed: string := "Error al minar el bloque."
  const UnknownMineFailure: string := "Ocurrió un error desconocido al minar el bloque."

  /** The user name shown in every document row: the token's `unique_name`,
      or empty when there is no token. */
  function UserName(claims: Option<TokenClaims>): (name: string)
    ensures claims.None? ==> name == ""
    ensures claims.Some? ==> name == claims.value.uniqueName
  {
    match claims
    case None => ""
    case Some(c) => c.uniqueName
  }

  /** The state slots of the block view. */
  class BlockView {
    var blocks: seq<Block>
    var error: string
    var systemConfig: Option<MiningConfig>
    const userName: string

    constructor (claims: Option<TokenClaims>)
      ensures blocks == [] && error == "" && systemConfig == None
      ensures userName == UserName(claims)
    {
      blocks := [];
      error := "";
      systemConfig := None;
      userName := UserName(claims);
    }

    /** `fetchBlocks`: an ok response replaces the list wholesale; any failure
        sets `error` and keeps the list. */
    method FetchBlocks(outcome: Response<seq<Block>>)
      modifies this
      ensures systemConfig == old(systemConfig)
      ensures outcome.Ok? ==> blocks == outcome.body && error == old(error)
      ensures outcome.NotOk? ==> blocks == old(blocks) && error == BlocksFetchFailed
      ensures outcome.Threw? ==>
        blocks == old(blocks) && error == CaughtMessage(outcome.thrown, UnknownFailure)
    {
      match outcome {
        case Ok(data) => blocks := data;
        case NotOk => error := BlocksFetchFailed;
        case Threw(t) => error := CaughtMessage(t, UnknownFailure);
      }
    }

    /** `fetchSystemConfig`: an ok response stores the (possibly null) body;
        any failure sets `error` and keeps the stored configuration. */
    method FetchSystemConfig(outcome: Response<Option<MiningConfig>>)
      modifies this
      ensures blocks == old(blocks)
      ensures outcome.Ok? ==> systemConfig == outcome.body && error == old(error)
      ensures outcome.NotOk? ==> systemConfig == old(systemConfig) && error == ConfigFetchFailed
      ensures outcome.Threw? ==>
        systemConfig == old(systemConfig) && error == CaughtMessage(outcome.thrown, UnknownFailure)
    {
      match outcome {
        case Ok(data) => systemConfig := data;
        case NotOk => error := ConfigFetchFailed;
        case Threw(t) => error := CaughtMessage(t, UnknownFailure);
      }
    }

    /** `handleMine(blockId)`. Without a loaded configuration no request is
        issued. Otherwise the request carries the configured difficulty, and
        `outcome` is what the backend answered: `Ok(truthy)` says whether the
        returned block was truthy. Only that case changes `blocks`. */
    method HandleMine(blockId: int, outcome: Response<bool>) returns (request: Option<MineRequest>)
      modifies this
      ensures systemConfig == old(systemConfig)
      ensures old(systemConfig).None? ==>
        request == None && blocks == old(blocks) && error == ConfigNotLoaded
      ensures old(systemConfig).Some? ==>
        request == Some(MineRequest(blockId, old(systemConfig).value.quantityOfZeros))
      ensures old(systemConfig).Some? && outcome.Ok? ==>
        error == old(error) &&
        blocks == if outcome.body then MarkMined(old(blocks), blockId) else old(blocks)
      ensures old(systemConfig).Some? && outcome == Ok(true) && UniqueIds(old(blocks)) &&
              FirstUnmined(old(blocks)) >= 0 && old(blocks)[FirstUnmined(old(blocks))].id == blockId ==>
        var g := FirstUnmined(old(blocks));
        forall i :: 0 <= i < |blocks| ==>
          (MineButtonAt(i) <==>
             g < i && !old(blocks)[i].isMined && forall j :: g < j < i ==> old(blocks)[j].isMined)
      ensures old(systemConfig).Some? && outcome.NotOk? ==>
        blocks == old(blocks) && error == MineFailed
      ensures old(systemConfig).Some? && outcome.Threw? ==>
        blocks == old(blocks) && error == CaughtMessage(outcome.thrown, UnknownMineFailure)
    {
      if systemConfig.None? {
        error := ConfigNotLoaded;
        return None;
      }
      var quantityOfZeros := systemConfig.value.quantityOfZeros;
      request := Some(MineRequest(blockId, quantityOfZeros));
      match outcome {
        case Ok(updatedBlock) =>
          if updatedBlock {
            ghost var before := blocks;
            blocks := MarkMined(blocks, blockId);
            if UniqueIds(before) && FirstUnmined(before) >= 0 && before[FirstUnmined(before)].id == blockId {
              GateMovesAfterMine(before);
            }
          }
        case NotOk => error := MineFailed;
        case Threw(t) => error := CaughtMessage(t, UnknownMineFailure);
      }
    }

    /** Whether the block at `index` currently renders the "Minar" button. */
    predicate MineButtonAt(index: nat)
      reads this
      requires index < |blocks|
    {
      OffersMine(blocks, index)
    }

    /** The short file-type names shown for the documents of block `index`. */
    function ShortNamesOf(index: nat): (names: seq<string>)
      reads this
      requires index < |blocks|
      ensures |names| == |blocks[index].documents|
      ensures forall i :: 0 <= i < |names| ==>
        names[i] == MimeToName(blocks[index].documents[i].fileType)
    {
      var docs := blocks[index].documents;
      seq(|docs|, i requires 0 <= i < |docs| => MimeToName(docs[i].fileType))
    }
  }
}
