/** The enumerations the services and DTOs share. `userRole` and
    `ArticleStatus` are declared in `utils/constants`, which is not part of
    this model: their string values are taken to be their member names.
    `MediaType` is declared with its values in the media entity.
 */
module Constants {

  datatype UserRole = ADMIN | EMPLOYEE

  datatype ArticleStatus = DRAFT | PUBLISHED | ARCHIVED

  datatype MediaType = IMAGE | DOCUMENT | OTHER

  function RoleName(r: UserRole): string {
    match r
    case ADMIN => "ADMIN"
    case EMPLOYEE => "EMPLOYEE"
  }

  function StatusName(s: ArticleStatus): string {
    match s
    case DRAFT => "DRAFT"
    case PUBLISHED => "PUBLISHED"
    case ARCHIVED => "ARCHIVED"
  }

  /** The values of `MediaType` (src/media/entities/media.entity.ts). */
  function MediaTypeName(t: MediaType): string {
    match t
    case IMAGE => "image"
    case DOCUMENT => "document"
    case OTHER => "other"
  }

  /** What `@IsEnum` compares a value with: every member's string value. */
  const RoleValues: seq<string> := [RoleName(ADMIN), RoleName(EMPLOYEE)]
  const StatusValues: seq<string> := [StatusName(DRAFT), StatusName(PUBLISHED), StatusName(ARCHIVED)]
  const MediaTypeValues: seq<string> := [MediaTypeName(IMAGE), MediaTypeName(DOCUMENT), MediaTypeName(OTHER)]
}
