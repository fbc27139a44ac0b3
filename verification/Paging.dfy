/** Reading the invoices of a date range page by page. */
module Paging {
  import opened Wrappers

  const PAGE_SIZE := 1000
  const MAX_PAGES := 10

  function Min(a: nat, b: nat): nat { if a < b then a else b }

  /** What `STARTPOSITION page * PAGE_SIZE + 1 MAXRESULTS PAGE_SIZE` selects from an ordered list. */
  function Page<T>(list: seq<T>, page: nat): seq<T> {
    list[Min(page * PAGE_SIZE, |list|)..Min((page + 1) * PAGE_SIZE, |list|)]
  }

  /** The server: the ordered list it holds when it answers each request, or the error it answers with. */
  type Server<!T> = nat -> Result<seq<T>, string>

  /** `rest` with `batch` in front. */
  function After<T>(batch: seq<T>, rest: Result<seq<T>, string>): Result<seq<T>, string> {
    if rest.Err? then rest else Ok(batch + rest.value)
  }

  lemma AfterTwice<T>(all: seq<T>, batch: seq<T>, rest: Result<seq<T>, string>)
    ensures After(all, After(batch, rest)) == After(all + batch, rest)
  {
    if rest.Ok? {
      assert all + (batch + rest.value) == all + batch + rest.value;
    }
  }

  /** The answers to the requests from `page` on, joined; the first error ends them. */
  function Answer<T>(server: Server<T>, page: nat): Result<seq<T>, string>
    requires page <= MAX_PAGES
    decreases MAX_PAGES - page
  {
    if page == MAX_PAGES then Ok([]) else
    match server(page)
    case Err(e) => Err(e)
    case Ok(list) =>
      var batch := Page(list, page);
      if |batch| < PAGE_SIZE then Ok(batch) else After(batch, Answer(server, page + 1))
  }

  function Requests<T>(server: Server<T>, page: nat): nat
    requires page <= MAX_PAGES
    decreases MAX_PAGES - page
  {
    if page == MAX_PAGES then 0
    else if server(page).Err? || |Page(server(page).value, page)| < PAGE_SIZE then 1
    else 1 + Requests(server, page + 1)
  }

  method InvoicesBetween<T>(server: Server<T>) returns (r: Result<seq<T>, string>, requests: nat)
    ensures r == Answer(server, 0)
    ensures requests == Requests(server, 0)
  {
    hide Page;
    var all: seq<T> := [];
    var page, done := 0, false;
    assert Answer(server, 0).Ok? ==> [] + Answer(server, 0).value == Answer(server, 0).value;
    while page < MAX_PAGES && !done
      invariant page <= MAX_PAGES
      invariant Answer(server, 0) == if done then Ok(all) else After(all, Answer(server, page))
      invariant Requests(server, 0) == page + (if done then 0 else Requests(server, page))
    {
      var payload := server(page);
      if payload.Err? {
        return Err(payload.error), page + 1;
      }
      var batch := Page(payload.value, page);
      done := |batch| < PAGE_SIZE;
      if !done {
        AfterTwice(all, batch, Answer(server, page + 1));
      }
      all := all + batch;
      page := page + 1;
    }
    assert all + [] == all;
    return Ok(all), page;
  }

  /** The part of `list` that the requests from `page` on can see. */
  function Rest<T>(list: seq<T>, page: nat): seq<T>
    requires page <= MAX_PAGES && page * PAGE_SIZE <= |list|
  {
    list[page * PAGE_SIZE..Min(|list|, MAX_PAGES * PAGE_SIZE)]
  }

  /** Request `page` is answered as if the server still held `list`. */
  predicate Answers<T(==)>(server: Server<T>, list: seq<T>, page: nat) {
    server(page).Ok? && Page(server(page).value, page) == Page(list, page)
  }

  /** All requests that reading `list` takes are answered so. */
  ghost predicate AnswersFrom<T>(server: Server<T>, list: seq<T>, page: nat) {
    forall p: nat | page <= p < MAX_PAGES && p * PAGE_SIZE <= |list| :: Answers(server, list, p)
  }

  lemma LastPage<T>(server: Server<T>, list: seq<T>, page: nat)
    requires page < MAX_PAGES && page * PAGE_SIZE <= |list| < (page + 1) * PAGE_SIZE
    ensures Answer(server, page) == Ok(Rest(list, page)) <==> Answers(server, list, page)
    ensures Answers(server, list, page) ==> Requests(server, page) == 1
  {
    assert Page(list, page) == Rest(list, page);
    if Answer(server, page) == Ok(Rest(list, page)) {
      var batch := Page(server(page).value, page);
      assert |batch| <= |Answer(server, page).value| < PAGE_SIZE;
    }
  }

  lemma PageBefore<T>(server: Server<T>, list: seq<T>, page: nat)
    requires page < MAX_PAGES && (page + 1) * PAGE_SIZE <= |list|
    ensures Answer(server, page) == Ok(Rest(list, page)) <==>
            Answers(server, list, page) && Answer(server, page + 1) == Ok(Rest(list, page + 1))
    ensures Answers(server, list, page) ==> Requests(server, page) == 1 + Requests(server, page + 1)
  {
    hide Answer, Requests;
    var first, rest := Page(list, page), Rest(list, page + 1);
    assert Rest(list, page) == first + rest && |first| == PAGE_SIZE;
    if server(page).Ok? {
      var batch := Page(server(page).value, page);
      AnswerStep(server, page);
      RequestsStep(server, page);
      assert |batch| <= PAGE_SIZE;
      var later := Answer(server, page + 1);
      if |batch| == PAGE_SIZE && later.Ok? {
        assert (batch + later.value)[..PAGE_SIZE] == batch && (batch + later.value)[PAGE_SIZE..] == later.value;
        assert (first + rest)[..PAGE_SIZE] == first && (first + rest)[PAGE_SIZE..] == rest;
      }
    } else {
      AnswerStep(server, page);
    }
  }

  lemma AnswerStep<T>(server: Server<T>, page: nat)
    requires page < MAX_PAGES
    ensures server(page).Err? ==> Answer(server, page).Err?
    ensures server(page).Ok? ==>
              var batch := Page(server(page).value, page);
              Answer(server, page) == if |batch| < PAGE_SIZE then Ok(batch) else After(batch, Answer(server, page + 1))
  {
  }

  lemma RequestsStep<T>(server: Server<T>, page: nat)
    requires page < MAX_PAGES && server(page).Ok?
    ensures Requests(server, page)
         == if |Page(server(page).value, page)| < PAGE_SIZE then 1 else 1 + Requests(server, page + 1)
  {
  }

  lemma {:induction false} ReadFromIff<T>(server: Server<T>, list: seq<T>, page: nat)
    requires page <= MAX_PAGES && page * PAGE_SIZE <= |list|
    ensures Answer(server, page) == Ok(Rest(list, page)) <==> AnswersFrom(server, list, page)
    ensures AnswersFrom(server, list, page) ==> page + Requests(server, page) == Min(MAX_PAGES, |list| / PAGE_SIZE + 1)
    decreases MAX_PAGES - page
  {
    if page == MAX_PAGES {
      assert Rest(list, page) == [];
    } else if (page + 1) * PAGE_SIZE > |list| {
      LastPage(server, list, page);
      hide Answer, Rest, Requests, Answers;
    } else {
      ReadFromIff(server, list, page + 1);
      PageBefore(server, list, page);
      hide Answer, Rest, Requests, Answers;
      assert AnswersFrom(server, list, page) <==> Answers(server, list, page) && AnswersFrom(server, list, page + 1);
    }
  }

  /**
   The first 10000 invoices of a list are read, once and in order and in as few requests as its length allows,
   exactly when each request that this takes is answered with the page the list has there, however the server's
   list moves meanwhile.
   */
  lemma ListIsReadIff<T>(server: Server<T>, list: seq<T>)
    ensures Answer(server, 0) == Ok(list[..Min(|list|, 10_000)]) <==> AnswersFrom(server, list, 0)
    ensures AnswersFrom(server, list, 0) ==> Requests(server, 0) == Min(10, |list| / 1000 + 1)
  {
    ReadFromIff(server, list, 0);
  }

  /** In particular when the list stands still, */
  lemma FixedListIsRead<T>(server: Server<T>, list: seq<T>)
    requires forall page: nat | page < 10 :: server(page) == Ok(list)
    ensures Answer(server, 0) == Ok(list[..Min(|list|, 10_000)])
    ensures Requests(server, 0) == Min(10, |list| / 1000 + 1)
  {
    ListIsReadIff(server, list);
  }

  /** or when it only grows at the end: then what is read is the list as the last request that is made finds it. */
  lemma AppendedListIsRead<T>(server: Server<T>, list: seq<T>, last: nat)
    requires last < 10 && last == Min(9, |list| / 1000)
    requires forall page: nat | page <= last ::
               && server(page).Ok? && server(page).value <= list
               && (page < last ==> (page + 1) * 1000 <= |server(page).value|)
    requires server(last) == Ok(list)
    ensures Answer(server, 0) == Ok(list[..Min(|list|, 10_000)])
  {
    forall p: nat | p < 10 && p * 1000 <= |list| ensures Answers(server, list, p) {
      assert p <= last;
      assert Page(server(p).value, p) == Page(list, p);
    }
    ListIsReadIff(server, list);
  }

  /** The first failing request decides, if it is made at all. */
  lemma {:induction false} ErrorIsReported<T>(server: Server<T>, list: seq<T>, page: nat, failing: nat, error: string)
    requires page <= failing < 10 && server(failing) == Err(error)
    requires forall before: nat | page <= before < failing :: Answers(server, list, before)
    ensures Answer(server, page) == Err(error) <==> failing == page || failing * 1000 <= |list|
    decreases failing - page
  {
    if page == failing {
    } else {
      ErrorIsReported(server, list, page + 1, failing, error);
      assert Answers(server, list, page);
      var batch := Page(server(page).value, page);
      hide Answer;
      AnswerStep(server, page);
      assert |batch| == |Page(list, page)|;
      assert |batch| < 1000 <==> |list| < (page + 1) * 1000;
    }
  }

  /** An invoice entered with an earlier date between two requests shifts the pages: the one at the seam comes twice. */
  lemma EarlierInsertDuplicates<T>(server: Server<T>, list: seq<T>, added: T)
    requires |list| >= 1000 && server(0) == Ok(list) && server(1) == Ok([added] + list)
    requires Answer(server, 0).Ok?
    ensures |Answer(server, 0).value| > 1000
    ensures Answer(server, 0).value[999] == Answer(server, 0).value[1000] == list[999]
  {
    hide Answer;
    var batch := Page([added] + list, 1);
    AnswerStep(server, 0);
    AnswerStep(server, 1);
    assert Answer(server, 1).Ok? && batch <= Answer(server, 1).value;
    assert batch[0] == ([added] + list)[1000];
  }

  lemma FirstPageLoses<T>(list: seq<T>, removed: T)
    requires |list| >= 1000 && removed != list[999]
    requires forall i | 0 <= i < |list| && i != 999 :: list[i] != list[999]
    ensures |Page([removed] + list, 0)| == PAGE_SIZE && list[999] !in Page([removed] + list, 0)
    ensures list[999] !in Rest(list, 1)
  {
    assert Page([removed] + list, 0) == [removed] + list[..999];
  }

  /** A deletion between the first two requests loses the invoice at the seam, unless another one is equal to it. */
  lemma EarlierDeleteLoses<T>(server: Server<T>, list: seq<T>, removed: T)
    requires |list| >= 1000 && server(0) == Ok([removed] + list)
    requires forall page: nat | 1 <= page < 10 :: server(page) == Ok(list)
    requires forall i | 0 <= i < |list| && i != 999 :: list[i] != list[999]
    requires removed != list[999]
    ensures Answer(server, 0).Ok? && list[999] !in Answer(server, 0).value
  {
    ReadFromIff(server, list, 1);
    AnswerStep(server, 0);
    FirstPageLoses(list, removed);
    assert Answer(server, 1) == Ok(Rest(list, 1));
    hide Answer, Page, Rest;
  }
}
