/** Row shapes and enums of the relational store that the check-in core reads
    and writes (generated type declarations of the Supabase schema). */
module Records {

  datatype Option<+T> = None | Some(value: T)

  /** Enum `attendance_status`. The check-in form only ever writes the first
      two; `TidakHadir` ("Tidak Hadir", absent) is set by other processes. */
  datatype AttendanceStatus = Hadir | Terlambat | TidakHadir

  /** A row of `jadwal_mengajar` (a teaching slot). Times come back from the
      store as "HH:MM:SS"; the admin form writes "HH:MM". */
  datatype ScheduleRow = ScheduleRow(
    idJadwal: string,
    idGuru: string,
    idMapel: string,
    idKelas: string,
    hari: string,
    jamMulai: string,
    jamSelesai: string)

  /** `presensi_mengajar.keterlambatan_menit` as a client sees it: the column
      is nullable, and a selected object may lack the key altogether. */
  datatype StoredLateness = Undefined | Null | Minutes(n: int)
}
