/**
 * The document list: the documents fetched from the backend and the local
 * removal that follows a confirmed delete.
 */
module Documents {
  import opened Net

  datatype Document = Document(
    id: int,
    owner: string,
    fileType: string,
    createdAt: string,
    size: int,
    base64Content: Option<string>)

  /** The only part of the system configuration this view keeps. */
  datatype BatchConfig = BatchConfig(maxDocs: int)

  /** How many entries of `docs` carry `id`. */
  function CountWithId(docs: seq<Document>, id: int): (n: nat)
    ensures n <= |docs|
    ensures n == 0 <==> forall i :: 0 <= i < |docs| ==> docs[i].id != id
  {
    if docs == [] then 0
    else (if docs[0].id == id then 1 else 0) + CountWithId(docs[1..], id)
  }

  /** `documents.filter(doc => doc.id !== id)`. */
  function RemoveById(docs: seq<Document>, id: int): (r: seq<Document>)
    ensures |r| == |docs| - CountWithId(docs, id)
    ensures forall d :: d in r <==> d in docs && d.id != id
  {
    if docs == [] then []
    else if docs[0].id == id then RemoveById(docs[1..], id)
    else [docs[0]] + RemoveById(docs[1..], id)
  }

  /** The filter distributes over concatenation: survivors keep their
      relative order. */
  lemma {:induction false} RemoveByIdAppend(a: seq<Document>, b: seq<Document>, id: int)
    ensures RemoveById(a + b, id) == RemoveById(a, id) + RemoveById(b, id)
  {
    if a == [] {
      assert a + b == b;
    } else {
      assert (a + b)[1..] == a[1..] + b;
      RemoveByIdAppend(a[1..], b, id);
    }
  }

  /** Removing an id no entry carries leaves the list as it is. */
  lemma {:induction false} RemoveAbsentId(docs: seq<Document>, id: int)
    requires forall i :: 0 <= i < |docs| ==> docs[i].id != id
    ensures RemoveById(docs, id) == docs
  {
    if docs != [] {
      RemoveAbsentId(docs[1..], id);
    }
  }

  ghost predicate UniqueIds(docs: seq<Document>)
  {
    forall i, j :: 0 <= i < j < |docs| ==> docs[i].id != docs[j].id
  }

  /** With unique ids, deleting a listed document removes exactly that entry:
      the list is what precedes it followed by what follows it. */
  lemma RemoveListedDocument(docs: seq<Document>, k: nat)
    requires UniqueIds(docs)
    requires k < |docs|
    ensures RemoveById(docs, docs[k].id) == docs[..k] + docs[k+1..]
    ensures |RemoveById(docs, docs[k].id)| == |docs| - 1
  {
    var id := docs[k].id;
    assert docs == docs[..k] + ([docs[k]] + docs[k+1..]);
    RemoveByIdAppend(docs[..k], [docs[k]] + docs[k+1..], id);
    RemoveByIdAppend([docs[k]], docs[k+1..], id);
    RemoveAbsentId(docs[..k], id);
    RemoveAbsentId(docs[k+1..], id);
    assert RemoveById([docs[k]], id) == [];
  }

  const UnknownFailure: string := "Ocurrió un error desconocido."

  /** The state slots of the document view. */
  class FileView {
    var documents: seq<Document>
    var systemConfig: Option<BatchConfig>
    var error: string

    constructor ()
      ensures documents == [] && systemConfig == None && error == ""
    {
      documents := [];
      systemConfig := None;
      error := "";
    }

    /** `fetchDocuments`: an ok response replaces the list; a non-ok response
        is only logged; a thrown error sets `error`. The list is never
        overwritten by a failure. */
    method FetchDocuments(outcome: Response<seq<Document>>)
      modifies this
      ensures systemConfig == old(systemConfig)
      ensures outcome.Ok? ==> documents == outcome.body && error == old(error)
      ensures outcome.NotOk? ==> documents == old(documents) && error == old(error)
      ensures outcome.Threw? ==>
        documents == old(documents) && error == CaughtMessage(outcome.thrown, UnknownFailure)
    {
      match outcome {
        case Ok(data) => documents := data;
        case NotOk =>
        case Threw(t) => error := CaughtMessage(t, UnknownFailure);
      }
    }

    /** `fetchSystemConfig`: the same outcome handling for the configuration. */
    method FetchSystemConfig(outcome: Response<Option<BatchConfig>>)
      modifies this
      ensures documents == old(documents)
      ensures outcome.Ok? ==> systemConfig == outcome.body && error == old(error)
      ensures outcome.NotOk? ==> systemConfig == old(systemConfig) && error == old(error)
      ensures outcome.Threw? ==>
        systemConfig == old(systemConfig) && error == CaughtMessage(outcome.thrown, UnknownFailure)
    {
      match outcome {
        case Ok(config) => systemConfig := config;
        case NotOk =>
        case Threw(t) => error := CaughtMessage(t, UnknownFailure);
      }
    }

    /** `handleDelete(document)`: the DELETE for `document.id` is sent first;
        the list changes only when the response is ok. The handler has no
        `catch`, so a thrown error changes nothing. The response body is
        not read, so an ok outcome carries no data. */
    method HandleDelete(document: Document, outcome: Response<()>) returns (requestedId: int)
      modifies this
      ensures requestedId == document.id
      ensures systemConfig == old(systemConfig) && error == old(error)
      ensures outcome.Ok? ==> documents == RemoveById(old(documents), document.id)
      ensures !outcome.Ok? ==> documents == old(documents)
    {
      requestedId := document.id;
      if outcome.Ok? {
        documents := RemoveById(documents, document.id);
      }
    }
  }
}
