/** The in-memory store of decided loan applications. It keeps one growable list for its
    whole lifetime and hands out that very list, not a copy, so a caller holding it sees
    every later save. */
module Repository {
  import opened Models

  /** A growable list of application references, kept in insertion order. */
  class LoanApplicationList {
    var elements: seq<LoanApplication>

    constructor ()
      ensures elements == []
    {
      elements := [];
    }

    /** Appends at the end; every earlier element keeps its position. */
    method Add(item: LoanApplication)
      modifies this
      ensures elements == old(elements) + [item]
    {
      elements := elements + [item];
    }
  }

  class InMemoryLoanRepository {
    /** The one list the repository owns; the reference itself never changes. */
    const loanApplications: LoanApplicationList

    /** A new repository holds a new, empty list. */
    constructor ()
      ensures fresh(loanApplications)
      ensures loanApplications.elements == []
    {
      loanApplications := new LoanApplicationList();
    }

    /** Stores the application after all earlier ones. The same application may be stored
        more than once, and the applications themselves are not changed. */
    method SaveLoanApplication(loanApplication: LoanApplication)
      modifies loanApplications
      ensures loanApplications.elements == old(loanApplications.elements) + [loanApplication]
    {
      loanApplications.Add(loanApplication);
    }

    /** Returns the live list itself. */
    method GetLoanApplications() returns (list: LoanApplicationList)
      ensures list == loanApplications
    {
      list := loanApplications;
    }
  }

  /** A list obtained before a save shows that save afterwards: the list handed out is the
      repository's own, so it now holds the earlier applications followed by the new one. */
  method ReturnedListSeesLaterSaves(repository: InMemoryLoanRepository, loanApplication: LoanApplication)
    returns (list: LoanApplicationList)
    modifies repository.loanApplications
    ensures list == repository.loanApplications
    ensures list.elements == old(repository.loanApplications.elements) + [loanApplication]
  {
    list := repository.GetLoanApplications();
    repository.SaveLoanApplication(loanApplication);
  }

  /** Saving a sequence of applications one by one stores exactly that sequence, in order,
      after what was already there. */
  method SaveAll(repository: InMemoryLoanRepository, applications: seq<LoanApplication>)
    modifies repository.loanApplications
    ensures repository.loanApplications.elements == old(repository.loanApplications.elements) + applications
  {
    var i := 0;
    while i < |applications|
      invariant 0 <= i <= |applications|
      invariant repository.loanApplications.elements
        == old(repository.loanApplications.elements) + applications[..i]
    {
      repository.SaveLoanApplication(applications[i]);
      assert applications[..i + 1] == applications[..i] + [applications[i]];
      i := i + 1;
    }
    assert applications[..i] == applications;
  }
}
