/**
 * The database rows the server reads and writes, and the database itself:
 * one object whose tables the handlers append to. Columns that no modelled
 * handler reads (timestamps of users and companies, resume URLs and text)
 * are omitted.
 */
module Schema {
  import opened Wrappers

  /**
   * A row of `users`. `companyName` is the column the registration handler
   * filters and writes; `companyId` is the nullable foreign key to
   * `companies`.
   */
  datatype UserRow = UserRow(
    id: nat,
    firebaseUid: string,
    name: string,
    email: Option<string>,
    role: string,
    companyName: string,
    companyId: Option<int>)

  datatype Company = Company(id: int, name: string)

  /** A row of `jobs`; `createdAt` is the server's clock at insertion. */
  datatype JobRow = JobRow(
    id: nat,
    title: string,
    description: string,
    companyId: int,
    recruiterId: nat,
    createdAt: int)

  /** A row of `resumes`, reduced to the columns the summary joins on. */
  datatype ResumeRow = ResumeRow(id: nat, jobId: int, status: string)

  /** The tables, in insertion order, with the next primary key of each table the handlers insert into. */
  class Database {
    var users: seq<UserRow>
    var nextUserId: nat
    var companies: seq<Company>
    var jobs: seq<JobRow>
    var nextJobId: nat
    var resumes: seq<ResumeRow>

    constructor (companies: seq<Company>, resumes: seq<ResumeRow>)
      ensures this.users == [] && this.jobs == []
      ensures this.companies == companies && this.resumes == resumes
      ensures this.nextUserId == 1 && this.nextJobId == 1
    {
      this.users := [];
      this.nextUserId := 1;
      this.companies := companies;
      this.jobs := [];
      this.nextJobId := 1;
      this.resumes := resumes;
    }
  }
}
