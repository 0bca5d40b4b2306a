/**
 * The records the client receives from the backend and keeps in its session:
 * a student, a schedule entry and an attendance record. They are read-only on
 * the client, so they are values.
 */
module Records {
  import opened Wrappers

  /** A student as returned by `GET /students/{indexNumber}`. */
  datatype Student = Student(
    indexNumber: string,
    firstName: string,
    lastName: string,
    groupName: Option<string>)

  /** The class meeting an attendance record refers to. */
  datatype Schedule = Schedule(
    subject: string,
    startTime: string,
    endTime: string,
    classroom: Option<string>,
    instructor: Option<string>,
    notes: Option<string>)

  /**
   * One attendance record. `status` is the backend's string, compared verbatim;
   * `markedAt` is the time the record was marked, in milliseconds.
   */
  datatype Attendance = Attendance(
    status: string,
    markedAt: int,
    notes: Option<string>,
    schedule: Schedule)

  const PRESENT := "PRESENT"
  const LATE := "LATE"
  const ABSENT := "ABSENT"

  /** One of the three statuses the client knows. */
  predicate IsRecognised(status: string) {
    status == PRESENT || status == LATE || status == ABSENT
  }
}
